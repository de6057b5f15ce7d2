/** The Robin Hood discipline of a bucket ring, as predicates and lemmas on bucket sequences. */
module RobinHood {
  import opened Bits

  datatype Entry = Entry(key: Bytes, val: Bytes)

  /** `dib` is the distance to the initial bucket plus one; zero marks an empty bucket. */
  datatype Bucket = Bucket(hash: nat, dib: nat, item: Entry)

  const HASH_RANGE: nat := 0x1_0000_0000_0000

  function Clip(h: nat): nat
  {
    h % HASH_RANGE
  }

  // ----- ring positions -----

  function Next(i: nat, n: nat): (r: nat)
    requires i < n
    ensures r < n
  {
    if i + 1 == n then 0 else i + 1
  }

  function Prev(i: nat, n: nat): (r: nat)
    requires i < n
    ensures r < n && Next(r, n) == i
  {
    if i == 0 then n - 1 else i - 1
  }

  /** Steps along the ring from `h` to `p`. */
  function Dist(h: nat, p: nat, n: nat): (r: nat)
    requires h < n && p < n
    ensures r < n
  {
    if h <= p then p - h else p + n - h
  }

  function Home(hash: nat, n: nat): (r: nat)
    requires n > 0
    ensures r < n
  {
    hash % n
  }

  /** The source's `hash & mask` is the home bucket, and its `(i + 1) & mask` the next bucket of the ring. */
  lemma MaskedSlots(hash: nat, i: nat, mask: nat, n: nat)
    requires IsPow2(n) && mask == n - 1 && i < n
    ensures BitAnd(hash, mask) == Home(hash, n)
    ensures BitAnd(i + 1, mask) == Next(i, n)
  {
    MaskIsMod(hash, n);
    MaskIsMod(i + 1, n);
    ModUnique(i + 1, n, if i + 1 == n then 1 else 0, Next(i, n));
  }

  // ----- the table invariant -----

  /** Every stored item knows its distance from its home bucket. */
  ghost predicate Placed(s: seq<Bucket>)
  {
    forall p {:trigger s[p]} | 0 <= p < |s| && s[p].dib > 0 :: s[p].dib == Dist(Home(s[p].hash, |s|), p, |s|) + 1
  }

  /** Distances never jump by more than one from a bucket to the next. */
  ghost predicate Graded(s: seq<Bucket>)
  {
    forall p {:trigger Next(p, |s|)} | 0 <= p < |s| :: s[Next(p, |s|)].dib <= s[p].dib + 1
  }

  ghost predicate Hashed(s: seq<Bucket>, H: Hash)
  {
    forall p | 0 <= p < |s| && s[p].dib > 0 :: s[p].hash == Clip(H(s[p].item.key))
  }

  ghost predicate Distinct(s: seq<Bucket>)
  {
    forall p, q | 0 <= p < |s| && 0 <= q < |s| && s[p].dib > 0 && s[q].dib > 0 && s[p].item.key == s[q].item.key
        :: p == q
  }

  ghost predicate Table(s: seq<Bucket>, H: Hash)
  {
    Placed(s) && Graded(s) && Hashed(s, H) && Distinct(s)
  }

  ghost predicate Stores(s: seq<Bucket>, k: Bytes)
  {
    exists p :: 0 <= p < |s| && s[p].dib > 0 && s[p].item.key == k
  }

  /** The buckets hold exactly the bindings of `m`. */
  ghost predicate Holds(s: seq<Bucket>, m: map<Bytes, Bytes>)
  {
    && (forall p | 0 <= p < |s| && s[p].dib > 0 :: s[p].item.key in m && m[s[p].item.key] == s[p].item.val)
    && (forall k | k in m :: Stores(s, k))
  }

  ghost predicate Vacant(s: seq<Bucket>, z: nat)
  {
    z < |s| && s[z].dib == 0
  }

  lemma EmptyTable(s: seq<Bucket>, H: Hash)
    requires forall p | 0 <= p < |s| :: s[p].dib == 0
    ensures Table(s, H) && Holds(s, map[])
  {
  }

  lemma CountKey(m: map<Bytes, Bytes>, k: Bytes)
    requires k in m
    ensures |m| > 0 && |m - {k}| == |m| - 1
  {
    assert (m - {k}).Keys == m.Keys - {k};
  }

  lemma NoKey(m: map<Bytes, Bytes>, k: Bytes)
    requires k !in m
    ensures m - {k} == m
  {
  }

  lemma HoldsUnique(s: seq<Bucket>, a: map<Bytes, Bytes>, b: map<Bytes, Bytes>)
    requires Holds(s, a) && Holds(s, b)
    ensures a == b
  {
    forall k | k in a || k in b
      ensures k in a && k in b && a[k] == b[k]
    {
      assert Stores(s, k);
    }
  }

  // ----- an empty bucket exists below full load -----

  ghost function KeysBelow(s: seq<Bucket>, k: nat): set<Bytes>
    requires k <= |s|
  {
    set p | 0 <= p < k :: s[p].item.key
  }

  lemma {:induction false} KeysBelowSize(s: seq<Bucket>, k: nat)
    requires k <= |s| && Distinct(s)
    requires forall p | 0 <= p < |s| :: s[p].dib > 0
    ensures |KeysBelow(s, k)| == k
  {
    if k != 0 {
      KeysBelowSize(s, k - 1);
      assert s[k - 1].item.key !in KeysBelow(s, k - 1);
      assert KeysBelow(s, k) == KeysBelow(s, k - 1) + {s[k - 1].item.key};
    } else {
      assert KeysBelow(s, 0) == {};
    }
  }

  lemma SubsetSize<T>(a: set<T>, b: set<T>)
    requires a <= b
    ensures |a| <= |b|
  {
    assert b == a + (b - a);
  }

  lemma VacantExists(s: seq<Bucket>, m: map<Bytes, Bytes>)
    requires Distinct(s) && Holds(s, m) && |m| < |s|
    ensures exists z: nat :: Vacant(s, z)
  {
    if forall p | 0 <= p < |s| :: s[p].dib > 0 {
      KeysBelowSize(s, |s|);
      SubsetSize(KeysBelow(s, |s|), m.Keys);
      assert false;
    } else {
      var z :| 0 <= z < |s| && s[z].dib == 0;
      assert Vacant(s, z);
    }
  }

  // ----- probing -----

  /** Entry `e`, about to be offered to bucket `i`, has travelled from its home past buckets it may not displace. */
  ghost predicate Carries(s: seq<Bucket>, H: Hash, e: Bucket, i: nat)
    requires i < |s|
  {
    && e.dib == Dist(Home(e.hash, |s|), i, |s|) + 1
    && e.dib <= s[Prev(i, |s|)].dib + 1
    && e.hash == Clip(H(e.item.key))
  }

  /** Distances force a fully occupied run from the home bucket up to (excluding) `i`. */
  lemma {:induction false} RunBack(s: seq<Bucket>, h: nat, i: nat, p: nat)
    requires Graded(s) && h < |s| && i < |s| && p < |s|
    requires Dist(h, i, |s|) <= s[Prev(i, |s|)].dib
    requires Dist(h, p, |s|) < Dist(h, i, |s|)
    ensures s[p].dib >= Dist(h, p, |s|) + 1
    decreases Dist(h, i, |s|)
  {
    var j := Prev(i, |s|);
    if p != j {
      assert Next(Prev(j, |s|), |s|) == j;
      RunBack(s, h, j, p);
    }
  }

  /** All buckets from the home of a stored item up to it are occupied and no poorer than it was there. */
  lemma StoredRun(s: seq<Bucket>, H: Hash, q: nat, p: nat)
    requires Table(s, H) && q < |s| && p < |s| && s[q].dib > 0
    requires Dist(Home(s[q].hash, |s|), p, |s|) <= Dist(Home(s[q].hash, |s|), q, |s|)
    ensures s[p].dib >= Dist(Home(s[q].hash, |s|), p, |s|) + 1
  {
    if p != q {
      assert Next(Prev(q, |s|), |s|) == q;
      RunBack(s, Home(s[q].hash, |s|), q, p);
    }
  }

  /** A carried entry never completes a lap: an empty bucket stops it first. */
  lemma NoLap(s: seq<Bucket>, H: Hash, e: Bucket, i: nat, z: nat)
    requires Graded(s) && i < |s| && Carries(s, H, e, i) && s[i].dib > 0 && Vacant(s, z)
    ensures e.dib + 1 == Dist(Home(e.hash, |s|), Next(i, |s|), |s|) + 1
    ensures i != z && Dist(Next(i, |s|), z, |s|) < Dist(i, z, |s|)
  {
    var h := Home(e.hash, |s|);
    if Dist(h, z, |s|) < Dist(h, i, |s|) {
      RunBack(s, h, i, z);
    }
  }

  lemma SkipKeeps(s: seq<Bucket>, H: Hash, e: Bucket, i: nat, z: nat)
    requires Graded(s) && i < |s| && Carries(s, H, e, i) && Vacant(s, z)
    requires s[i].dib >= e.dib > 0
    ensures Carries(s, H, e.(dib := e.dib + 1), Next(i, |s|))
  {
    NoLap(s, H, e, i, z);
    assert Prev(Next(i, |s|), |s|) == i;
  }

  /** Storing a carried entry in a bucket that is empty or richer keeps the table invariant. */
  lemma StoreKeeps(s: seq<Bucket>, H: Hash, e: Bucket, i: nat)
    requires Table(s, H) && i < |s| && Carries(s, H, e, i)
    requires s[i].dib < e.dib && !Stores(s, e.item.key)
    ensures Table(s[i := e], H)
  {
    var t := s[i := e];
    forall p | 0 <= p < |t|
      ensures t[Next(p, |t|)].dib <= t[p].dib + 1
    {
      assert s[Next(p, |s|)].dib <= s[p].dib + 1;
      if Next(p, |t|) == i {
        assert p == Prev(i, |s|);
      }
    }
    forall p, q | 0 <= p < |t| && 0 <= q < |t| && t[p].dib > 0 && t[q].dib > 0 && t[p].item.key == t[q].item.key
      ensures p == q
    {
    }
  }

  lemma SwapKeeps(s: seq<Bucket>, H: Hash, e: Bucket, i: nat, z: nat)
    requires Table(s, H) && i < |s| && Carries(s, H, e, i) && Vacant(s, z)
    requires 0 < s[i].dib < e.dib && !Stores(s, e.item.key)
    ensures Table(s[i := e], H) && Vacant(s[i := e], z)
    ensures Carries(s[i := e], H, s[i].(dib := s[i].dib + 1), Next(i, |s|))
    ensures !Stores(s[i := e], s[i].item.key)
  {
    var t, d := s[i := e], s[i];
    StoreKeeps(s, H, e, i);
    assert Carries(s, H, d, i) by {
      assert Next(Prev(i, |s|), |s|) == i;
    }
    NoLap(s, H, d, i, z);
    assert Prev(Next(i, |s|), |s|) == i;
  }

  /** Exchanging the carried binding for the displaced one. */
  lemma SwapHolds(s: seq<Bucket>, m: map<Bytes, Bytes>, e: Bucket, i: nat)
    requires i < |s| && s[i].dib > 0 && e.dib > 0 && Distinct(s)
    requires e.item.key in m && m[e.item.key] == e.item.val && !Stores(s, e.item.key)
    requires s[i].item.key in m && m[s[i].item.key] == s[i].item.val
    requires Holds(s, m - {e.item.key})
    ensures Holds(s[i := e], m - {s[i].item.key})
  {
    var t, d := s[i := e], s[i];
    assert Stores(s, d.item.key);
    forall p | 0 <= p < |t| && t[p].dib > 0
      ensures t[p].item.key in m - {d.item.key} && m[t[p].item.key] == t[p].item.val
    {
      if p != i {
        assert s[p].item.key != d.item.key;
      }
    }
    forall k | k in m - {d.item.key}
      ensures Stores(t, k)
    {
      if k == e.item.key {
        assert t[i].item.key == k;
      } else {
        assert Stores(s, k);
        var q :| 0 <= q < |s| && s[q].dib > 0 && s[q].item.key == k;
        assert t[q] == s[q];
      }
    }
  }

  /** Filling an empty bucket with the carried binding completes the map. */
  lemma FillHolds(s: seq<Bucket>, m: map<Bytes, Bytes>, e: Bucket, i: nat)
    requires i < |s| && s[i].dib == 0 && e.dib > 0
    requires e.item.key in m && m[e.item.key] == e.item.val
    requires Holds(s, m - {e.item.key})
    ensures Holds(s[i := e], m)
  {
    var t := s[i := e];
    forall k | k in m
      ensures Stores(t, k)
    {
      if k == e.item.key {
        assert t[i].item.key == k;
      } else {
        assert Stores(s, k);
        var q :| 0 <= q < |s| && s[q].dib > 0 && s[q].item.key == k;
        assert t[q] == s[q];
      }
    }
  }

  /** The binding of `target` missing from the table is the one in hand, offered next to bucket `j`. */
  ghost predicate Moving(t: seq<Bucket>, H: Hash, target: map<Bytes, Bytes>, e: Bucket, j: nat, z: nat)
  {
    && j < |t| && Table(t, H) && Vacant(t, z) && Carries(t, H, e, j)
    && e.item.key in target && target[e.item.key] == e.item.val
    && !Stores(t, e.item.key) && Holds(t, target - {e.item.key})
  }

  /** One step of the displacement chain: take the bucket of a richer item, or pass on. */
  lemma MoveStep(t: seq<Bucket>, H: Hash, target: map<Bytes, Bytes>, e: Bucket, j: nat, z: nat)
    requires Moving(t, H, target, e, j, z) && t[j].dib != 0
    ensures t[j].dib < e.dib ==> Moving(t[j := e], H, target, t[j].(dib := t[j].dib + 1), Next(j, |t|), z)
    ensures t[j].dib >= e.dib ==> Moving(t, H, target, e.(dib := e.dib + 1), Next(j, |t|), z)
    ensures j != z && Dist(Next(j, |t|), z, |t|) < Dist(j, z, |t|)
  {
    NoLap(t, H, e, j, z);
    if t[j].dib < e.dib {
      SwapKeeps(t, H, e, j, z);
      assert t[j].item.key in target - {e.item.key};
      SwapHolds(t, target, e, j);
    } else {
      SkipKeeps(t, H, e, j, z);
    }
  }

  /** The displacement chain ends at an empty bucket, and then the table holds all of `target`. */
  lemma MoveEnd(t: seq<Bucket>, H: Hash, target: map<Bytes, Bytes>, e: Bucket, j: nat, z: nat)
    requires Moving(t, H, target, e, j, z) && t[j].dib == 0
    ensures Table(t[j := e], H) && Holds(t[j := e], target)
  {
    StoreKeeps(t, H, e, j);
    FillHolds(t, target, e, j);
  }

  /** Overwriting the item of a stored key changes that binding only. */
  lemma ReplaceKeeps(s: seq<Bucket>, H: Hash, m: map<Bytes, Bytes>, i: nat, x: Entry)
    requires Table(s, H) && Holds(s, m) && i < |s| && s[i].dib > 0 && s[i].item.key == x.key
    ensures Table(s[i := s[i].(item := x)], H) && Holds(s[i := s[i].(item := x)], m[x.key := x.val])
  {
    var t := s[i := s[i].(item := x)];
    forall p | 0 <= p < |t|
      ensures t[Next(p, |t|)].dib <= t[p].dib + 1
    {
      assert s[Next(p, |s|)].dib <= s[p].dib + 1;
    }
    forall k | k in m[x.key := x.val]
      ensures Stores(t, k)
    {
      if k == x.key {
        assert t[i].item.key == k;
      } else {
        assert Stores(s, k);
        var q :| 0 <= q < |s| && s[q].dib > 0 && s[q].item.key == k;
        assert t[q] == s[q];
      }
    }
  }

  /** No bucket from `h` up to (excluding) `i` holds key `k`. */
  ghost predicate Missed(s: seq<Bucket>, k: Bytes, h: nat, i: nat)
    requires h < |s| && i < |s|
  {
    forall p | 0 <= p < |s| && Dist(h, p, |s|) < Dist(h, i, |s|) :: s[p].item.key != k
  }

  /** The early stop: a bucket poorer-placed than the searcher would be there proves the key absent. */
  lemma AbsentHere(s: seq<Bucket>, H: Hash, k: Bytes, i: nat)
    requires Table(s, H) && i < |s|
    requires Missed(s, k, Home(Clip(H(k)), |s|), i)
    requires s[i].dib < Dist(Home(Clip(H(k)), |s|), i, |s|) + 1
    ensures !Stores(s, k)
  {
    if Stores(s, k) {
      var q :| 0 <= q < |s| && s[q].dib > 0 && s[q].item.key == k;
      StoredRun(s, H, q, i);
    }
  }

  lemma MissedNext(s: seq<Bucket>, k: Bytes, h: nat, i: nat)
    requires h < |s| && i < |s| && Missed(s, k, h, i) && s[i].item.key != k
    requires Dist(h, Next(i, |s|), |s|) == Dist(h, i, |s|) + 1
    ensures Missed(s, k, h, Next(i, |s|))
  {
    forall p | 0 <= p < |s| && Dist(h, p, |s|) < Dist(h, Next(i, |s|), |s|)
      ensures s[p].item.key != k
    {
      if Dist(h, p, |s|) == Dist(h, i, |s|) {
        assert p == i;
      }
    }
  }

  /** The caller's item on its way: still in hand and unmet so far, or already stored with a displaced item in hand. */
  ghost predicate Probing(t: seq<Bucket>, H: Hash, m: map<Bytes, Bytes>, item: Entry, e: Bucket, i: nat, z: nat,
                          swapped: bool)
  {
    if swapped then
      item.key !in m && Moving(t, H, m[item.key := item.val], e, i, z)
    else
      && i < |t| && Table(t, H) && Holds(t, m) && Vacant(t, z) && Carries(t, H, e, i)
      && e.item == item && Missed(t, item.key, Home(e.hash, |t|), i)
  }

  lemma ProbeStart(t: seq<Bucket>, H: Hash, m: map<Bytes, Bytes>, item: Entry) returns (z: nat)
    requires Table(t, H) && Holds(t, m) && |m| < |t|
    ensures z < |t|
    ensures Probing(t, H, m, item, Bucket(Clip(H(item.key)), 1, item), Home(Clip(H(item.key)), |t|), z, false)
  {
    VacantExists(t, m);
    z :| Vacant(t, z);
  }

  /** The replace branch fires exactly when the caller's own item, not yet swapped, meets its stored key. */
  lemma ProbeMatch(t: seq<Bucket>, H: Hash, m: map<Bytes, Bytes>, item: Entry, e: Bucket, i: nat, z: nat, swapped: bool)
    requires Probing(t, H, m, item, e, i, z, swapped) && t[i].dib != 0
    ensures t[i].item.key == e.item.key ==> e.hash == t[i].hash && !swapped
    ensures t[i].item.key == e.item.key ==> item.key in m && t[i].item == Entry(item.key, m[item.key])
    ensures t[i].item.key == e.item.key ==> Table(t[i := t[i].(item := e.item)], H)
    ensures t[i].item.key == e.item.key ==> Holds(t[i := t[i].(item := e.item)], m[item.key := item.val])
  {
    if t[i].item.key == e.item.key {
      assert Stores(t, e.item.key);
      ReplaceKeeps(t, H, m, i, item);
    }
  }

  /** Before any swap, a poorer bucket or an empty one proves the key absent: the displacement chain may begin. */
  lemma ProbeTurns(t: seq<Bucket>, H: Hash, m: map<Bytes, Bytes>, item: Entry, e: Bucket, i: nat, z: nat)
    requires Probing(t, H, m, item, e, i, z, false) && t[i].dib < e.dib
    ensures Probing(t, H, m, item, e, i, z, true)
  {
    AbsentHere(t, H, item.key, i);
    var target := m[item.key := item.val];
    assert item.key in m ==> Stores(t, item.key);
    assert target - {item.key} == m;
  }

  lemma ProbePasses(t: seq<Bucket>, H: Hash, m: map<Bytes, Bytes>, item: Entry, e: Bucket, i: nat, z: nat)
    requires Probing(t, H, m, item, e, i, z, false) && t[i].dib >= e.dib && t[i].item.key != item.key
    ensures Probing(t, H, m, item, e.(dib := e.dib + 1), Next(i, |t|), z, false)
    ensures i != z && Dist(Next(i, |t|), z, |t|) < Dist(i, z, |t|)
  {
    NoLap(t, H, e, i, z);
    SkipKeeps(t, H, e, i, z);
    MissedNext(t, item.key, Home(e.hash, |t|), i);
  }

  lemma ProbeStep(t: seq<Bucket>, H: Hash, m: map<Bytes, Bytes>, item: Entry, e: Bucket, i: nat, z: nat, swapped: bool)
    requires Probing(t, H, m, item, e, i, z, swapped) && t[i].dib != 0 && t[i].item.key != e.item.key
    ensures t[i].dib < e.dib ==> Probing(t[i := e], H, m, item, t[i].(dib := t[i].dib + 1), Next(i, |t|), z, true)
    ensures t[i].dib >= e.dib ==> Probing(t, H, m, item, e.(dib := e.dib + 1), Next(i, |t|), z, swapped)
    ensures i != z && Dist(Next(i, |t|), z, |t|) < Dist(i, z, |t|)
  {
    if !swapped && t[i].dib >= e.dib {
      ProbePasses(t, H, m, item, e, i, z);
    } else {
      if !swapped {
        ProbeTurns(t, H, m, item, e, i, z);
      }
      MoveStep(t, H, m[item.key := item.val], e, i, z);
    }
  }

  lemma ProbeEnd(t: seq<Bucket>, H: Hash, m: map<Bytes, Bytes>, item: Entry, e: Bucket, i: nat, z: nat, swapped: bool)
    requires Probing(t, H, m, item, e, i, z, swapped) && t[i].dib == 0
    ensures item.key !in m && Table(t[i := e], H) && Holds(t[i := e], m[item.key := item.val])
  {
    if !swapped {
      ProbeTurns(t, H, m, item, e, i, z);
    }
    MoveEnd(t, H, m[item.key := item.val], e, i, z);
  }

  // ----- lookup -----

  /** A lookup of `k` has reached bucket `i`, and everything since its home was occupied by other keys. */
  ghost predicate Seeking(t: seq<Bucket>, H: Hash, m: map<Bytes, Bytes>, k: Bytes, i: nat, z: nat)
  {
    && i < |t| && Table(t, H) && Holds(t, m) && Vacant(t, z)
    && Missed(t, k, Home(Clip(H(k)), |t|), i)
    && (forall p | 0 <= p < |t| && Dist(Home(Clip(H(k)), |t|), p, |t|) < Dist(Home(Clip(H(k)), |t|), i, |t|)
         :: t[p].dib > 0)
  }

  lemma SeekStart(t: seq<Bucket>, H: Hash, m: map<Bytes, Bytes>, k: Bytes) returns (z: nat)
    requires Table(t, H) && Holds(t, m) && |m| < |t|
    ensures z < |t| && Seeking(t, H, m, k, Home(Clip(H(k)), |t|), z)
  {
    VacantExists(t, m);
    z :| Vacant(t, z);
  }

  lemma SeekStep(t: seq<Bucket>, H: Hash, m: map<Bytes, Bytes>, k: Bytes, i: nat, z: nat)
    requires Seeking(t, H, m, k, i, z) && t[i].dib != 0
    ensures t[i].item.key == k ==> t[i].hash == Clip(H(k)) && k in m && t[i].item == Entry(k, m[k])
    ensures t[i].item.key != k ==> Seeking(t, H, m, k, Next(i, |t|), z)
    ensures i != z && Dist(Next(i, |t|), z, |t|) < Dist(i, z, |t|)
  {
    var h := Home(Clip(H(k)), |t|);
    assert Dist(h, z, |t|) >= Dist(h, i, |t|);
    if t[i].item.key != k {
      MissedNext(t, k, h, i);
    }
  }

  /** An empty bucket ends the search: the key is nowhere in the table. */
  lemma SeekEnd(t: seq<Bucket>, H: Hash, m: map<Bytes, Bytes>, k: Bytes, i: nat, z: nat)
    requires Seeking(t, H, m, k, i, z) && t[i].dib == 0
    ensures k !in m
  {
    AbsentHere(t, H, k, i);
    assert k in m ==> Stores(t, k);
  }

  // ----- backward-shift deletion -----

  /** A table with one hole at `i`: the gradient may fail only from the hole to its successor, and there by one. */
  ghost predicate Holed(s: seq<Bucket>, H: Hash, i: nat)
    requires i < |s|
  {
    Placed(s) && Hashed(s, H) && Distinct(s) && s[i].dib == 0 && Gapped(s, i)
  }

  /** Distances jump by at most one everywhere but across the hole. */
  ghost predicate Gapped(s: seq<Bucket>, i: nat)
    requires i < |s|
  {
    && (forall p {:trigger Next(p, |s|)} | 0 <= p < |s| && p != i :: s[Next(p, |s|)].dib <= s[p].dib + 1)
    && s[Next(i, |s|)].dib <= s[Prev(i, |s|)].dib + 2
  }

  /** Emptying a bucket opens a hole and forgets exactly its key. */
  lemma HoleOpens(s: seq<Bucket>, H: Hash, m: map<Bytes, Bytes>, i: nat)
    requires Table(s, H) && Holds(s, m) && i < |s| && s[i].dib > 0 && |s| > 1
    ensures Holed(s[i := s[i].(dib := 0)], H, i)
    ensures Holds(s[i := s[i].(dib := 0)], m - {s[i].item.key})
  {
    HoleForgets(s, m, i);
    GapOpens(s, i);
    hide Holds, Graded, Gapped;
  }

  lemma GapOpens(s: seq<Bucket>, i: nat)
    requires Graded(s) && i < |s| && s[i].dib > 0 && |s| > 1
    ensures Gapped(s[i := s[i].(dib := 0)], i)
  {
    var t := s[i := s[i].(dib := 0)];
    forall p | 0 <= p < |t| && p != i
      ensures t[Next(p, |t|)].dib <= t[p].dib + 1
    {
      assert s[Next(p, |s|)].dib <= s[p].dib + 1;
    }
    assert s[Next(i, |s|)].dib <= s[i].dib + 1;
    assert s[Next(Prev(i, |s|), |s|)].dib <= s[Prev(i, |s|)].dib + 1;
  }

  lemma HoleForgets(s: seq<Bucket>, m: map<Bytes, Bytes>, i: nat)
    requires Distinct(s) && Holds(s, m) && i < |s| && s[i].dib > 0
    ensures Holds(s[i := s[i].(dib := 0)], m - {s[i].item.key})
  {
    var t := s[i := s[i].(dib := 0)];
    forall k | k in m - {s[i].item.key}
      ensures Stores(t, k)
    {
      assert Stores(s, k);
      var q :| 0 <= q < |s| && s[q].dib > 0 && s[q].item.key == k;
      assert t[q] == s[q];
    }
  }

  /** A bucket one slot nearer to its home. */
  function Pulled(b: Bucket): Bucket
  {
    b.(dib := if b.dib == 0 then 0 else b.dib - 1)
  }

  lemma PulledIs(b: Bucket)
    requires b.dib > 0
    ensures Pulled(b) == b.(dib := b.dib - 1)
  {
  }

  /** Pulling the successor back into the hole moves the hole one bucket on. */
  lemma HoleMoves(s: seq<Bucket>, H: Hash, i: nat, j: nat, t: seq<Bucket>)
    requires i < |s| && |s| > 1 && Holed(s, H, i)
    requires j == Next(i, |s|) && s[j].dib > 1
    requires t == s[i := Pulled(s[j])][j := s[j].(dib := 0)]
    ensures Holed(t, H, j)
  {
    GapMoves(s, i, j, t);
    HoleDistinct(s, i, j, t);
    hide Gapped, Distinct;
  }

  lemma GapMoves(s: seq<Bucket>, i: nat, j: nat, t: seq<Bucket>)
    requires i < |s| && |s| > 1 && Gapped(s, i) && j == Next(i, |s|) && s[j].dib > 1
    requires t == s[i := Pulled(s[j])][j := s[j].(dib := 0)]
    ensures Gapped(t, j)
  {
    assert Prev(j, |s|) == i;
    forall p | 0 <= p < |t| && p != j
      ensures t[Next(p, |t|)].dib <= t[p].dib + 1
    {
      if p != i {
        assert s[Next(p, |s|)].dib <= s[p].dib + 1;
        if Next(p, |t|) == i {
          assert p == Prev(i, |s|);
        }
      }
    }
    assert s[Next(j, |s|)].dib <= s[j].dib + 1;
  }

  lemma HoleDistinct(s: seq<Bucket>, i: nat, j: nat, t: seq<Bucket>)
    requires i < |s| && j < |s| && i != j && Distinct(s) && s[i].dib == 0 && s[j].dib > 1
    requires t == s[i := Pulled(s[j])][j := s[j].(dib := 0)]
    ensures Distinct(t)
  {
    forall p, q | 0 <= p < |t| && 0 <= q < |t| && t[p].dib > 0 && t[q].dib > 0 && t[p].item.key == t[q].item.key
      ensures p == q
    {
      var p', q' := if p == i then j else p, if q == i then j else q;
      assert s[p'].item.key == s[q'].item.key;
    }
  }

  /** Moving the hole loses no binding. */
  lemma HoleHolds(s: seq<Bucket>, m: map<Bytes, Bytes>, i: nat, j: nat, t: seq<Bucket>)
    requires i < |s| && j < |s| && i != j && Holds(s, m) && s[i].dib == 0 && s[j].dib > 1
    requires t == s[i := Pulled(s[j])][j := s[j].(dib := 0)]
    ensures Holds(t, m)
  {
    forall p | 0 <= p < |t| && t[p].dib > 0
      ensures t[p].item.key in m && m[t[p].item.key] == t[p].item.val
    {
      assert t[p].item == s[if p == i then j else p].item;
    }
    forall k | k in m
      ensures Stores(t, k)
    {
      assert Stores(s, k);
      var q :| 0 <= q < |s| && s[q].dib > 0 && s[q].item.key == k;
      assert t[if q == j then i else q].item == s[q].item;
    }
  }

  lemma HoleCloses(s: seq<Bucket>, H: Hash, i: nat)
    requires i < |s| && Holed(s, H, i) && s[Next(i, |s|)].dib <= 1
    ensures Table(s, H)
  {
  }

  /** `t` is `s` with bucket `i` deleted: the `r` buckets behind it, exactly those away from their own home, each moved
      one slot back, and the last of them was vacated. */
  ghost predicate Vacated(s: seq<Bucket>, t: seq<Bucket>, i: nat, r: nat)
  {
    && i < |s| == |t| && r < |s|
    && (forall p | 0 <= p < |s| && Dist(i, p, |s|) < r :: s[Next(p, |s|)].dib > 1 && t[p] == Pulled(s[Next(p, |s|)]))
    && (forall p | 0 <= p < |s| && Dist(i, p, |s|) == r :: s[Next(p, |s|)].dib <= 1 && t[p] == s[p].(dib := 0))
    && (forall p | 0 <= p < |s| && Dist(i, p, |s|) > r :: t[p] == s[p])
  }

  /** The deletion of bucket `i` of `s` after `r` moves: `t` is the array, with the hole at `hole`. */
  ghost predicate Moved(s: seq<Bucket>, t: seq<Bucket>, i: nat, r: nat, hole: nat, z: nat)
  {
    && i < |s| == |t| && hole < |s| && |s| > 1 && Vacant(s, z)
    && Dist(i, hole, |s|) == r && r < Dist(i, z, |s|)
    && (forall p | 0 <= p < |s| && p != hole :: t[p] == if Dist(i, p, |s|) < r then Pulled(s[Next(p, |s|)]) else s[p])
    && (forall p | 0 <= p < |s| && Dist(i, p, |s|) < r :: s[Next(p, |s|)].dib > 1)
    && t[hole].(dib := 0) == s[hole].(dib := 0)
  }

  ghost predicate Shifting(s: seq<Bucket>, t: seq<Bucket>, H: Hash, m: map<Bytes, Bytes>, i: nat, r: nat, hole: nat,
                           z: nat)
  {
    && Moved(s, t, i, r, hole, z)
    && Holed(t[hole := t[hole].(dib := 0)], H, hole)
    && Holds(t[hole := t[hole].(dib := 0)], m)
  }

  lemma ShiftStart(s: seq<Bucket>, H: Hash, m: map<Bytes, Bytes>, i: nat, z: nat)
    requires Table(s, H) && Holds(s, m) && i < |s| && s[i].dib > 0 && |s| > 1 && Vacant(s, z)
    ensures Shifting(s, s[i := s[i].(dib := 0)], H, m - {s[i].item.key}, i, 0, i, z)
  {
    HoleOpens(s, H, m, i);
    var t := s[i := s[i].(dib := 0)];
    assert t[i := t[i].(dib := 0)] == t;
  }

  lemma MovedStep(s: seq<Bucket>, t: seq<Bucket>, i: nat, r: nat, hole: nat, z: nat)
    requires Moved(s, t, i, r, hole, z) && t[Next(hole, |t|)].dib > 1
    ensures Moved(s, t[hole := Pulled(t[Next(hole, |t|)])], i, r + 1, Next(hole, |t|), z)
    ensures hole != z && Dist(Next(hole, |t|), z, |t|) < Dist(hole, z, |t|)
  {
  }

  lemma ShiftStep(s: seq<Bucket>, t: seq<Bucket>, H: Hash, m: map<Bytes, Bytes>, i: nat, r: nat, hole: nat, z: nat)
    requires Shifting(s, t, H, m, i, r, hole, z) && t[Next(hole, |t|)].dib > 1
    ensures Shifting(s, t[hole := Pulled(t[Next(hole, |t|)])], H, m, i, r + 1, Next(hole, |t|), z)
    ensures hole != z && Dist(Next(hole, |t|), z, |t|) < Dist(hole, z, |t|)
  {
    hide Holed, Holds, Moved;
    MovedStep(s, t, i, r, hole, z);
    ReholeStep(t, H, m, hole);
  }

  lemma ReholeStep(t: seq<Bucket>, H: Hash, m: map<Bytes, Bytes>, hole: nat)
    requires hole < |t| && |t| > 1 && t[Next(hole, |t|)].dib > 1
    requires Holed(t[hole := t[hole].(dib := 0)], H, hole) && Holds(t[hole := t[hole].(dib := 0)], m)
    ensures var j := Next(hole, |t|);
      var t' := t[hole := Pulled(t[j])];
      Holed(t'[j := t'[j].(dib := 0)], H, j) && Holds(t'[j := t'[j].(dib := 0)], m)
  {
    hide Holds, Distinct, Placed, Hashed;
    var j := Next(hole, |t|);
    var t' := t[hole := Pulled(t[j])];
    var u := t[hole := t[hole].(dib := 0)];
    var u' := t'[j := t'[j].(dib := 0)];
    assert u' == u[hole := Pulled(u[j])][j := u[j].(dib := 0)];
    HoleMoves(u, H, hole, j, u');
    HoleHolds(u, m, hole, j, u');
  }

  /** The shift ends: a sound table holding the remaining bindings, each item of the run one slot nearer home. */
  lemma ShiftEnd(s: seq<Bucket>, t: seq<Bucket>, H: Hash, m: map<Bytes, Bytes>, i: nat, r: nat, hole: nat, z: nat)
    requires Shifting(s, t, H, m, i, r, hole, z) && t[Next(hole, |t|)].dib <= 1
    ensures var u := t[hole := t[hole].(dib := 0)];
      Table(u, H) && Holds(u, m) && Vacated(s, u, i, r)
  {
    hide Moved, Vacated, Holed, Table, Holds;
    HoleCloses(t[hole := t[hole].(dib := 0)], H, hole);
    ShiftVacates(s, t, i, r, hole, z);
  }

  lemma ShiftVacates(s: seq<Bucket>, t: seq<Bucket>, i: nat, r: nat, hole: nat, z: nat)
    requires Moved(s, t, i, r, hole, z) && t[Next(hole, |t|)].dib <= 1
    ensures Vacated(s, t[hole := t[hole].(dib := 0)], i, r)
  {
    var j := Next(hole, |t|);
    assert forall p | 0 <= p < |s| && Dist(i, p, |s|) == r :: p == hole;
    assert Dist(i, j, |s|) == r + 1 && t[j] == s[j];
  }

  // ----- rehashing -----

  /** The bindings stored in the first `k` buckets. */
  ghost function Prefix(s: seq<Bucket>, k: nat): map<Bytes, Bytes>
    requires k <= |s|
  {
    if k == 0 then map[]
    else if s[k - 1].dib == 0 then Prefix(s, k - 1)
    else Prefix(s, k - 1)[s[k - 1].item.key := s[k - 1].item.val]
  }

  lemma PrefixNone(s: seq<Bucket>)
    ensures Prefix(s, 0) == map[]
  {
  }

  lemma PrefixSkip(s: seq<Bucket>, k: nat)
    requires k < |s| && s[k].dib == 0
    ensures Prefix(s, k + 1) == Prefix(s, k)
  {
  }

  lemma {:induction false} PrefixKeys(s: seq<Bucket>, k: nat)
    requires k <= |s|
    ensures forall x :: x in Prefix(s, k) <==> exists p :: 0 <= p < k && s[p].dib > 0 && s[p].item.key == x
  {
    if k != 0 {
      PrefixKeys(s, k - 1);
    }
  }

  lemma {:induction false} PrefixSub(s: seq<Bucket>, m: map<Bytes, Bytes>, k: nat)
    requires k <= |s| && Holds(s, m)
    ensures forall x | x in Prefix(s, k) :: x in m && Prefix(s, k)[x] == m[x]
    ensures |Prefix(s, k)| <= |m|
  {
    if k != 0 {
      PrefixSub(s, m, k - 1);
    }
    SubsetSize(Prefix(s, k).Keys, m.Keys);
  }

  lemma PrefixAll(s: seq<Bucket>, m: map<Bytes, Bytes>)
    requires Holds(s, m)
    ensures Prefix(s, |s|) == m
  {
    PrefixKeys(s, |s|);
    PrefixSub(s, m, |s|);
    forall k | k in m
      ensures k in Prefix(s, |s|)
    {
      assert Stores(s, k);
    }
  }

  /** Bucket `k`, set out from home towards a table that holds the earlier buckets' bindings. */
  lemma MoveStart(s: seq<Bucket>, m: map<Bytes, Bytes>, k: nat, t: seq<Bucket>, H: Hash) returns (z: nat)
    requires Table(s, H) && Holds(s, m) && k < |s| && s[k].dib > 0
    requires Table(t, H) && Holds(t, Prefix(s, k)) && |m| < |t|
    ensures z < |t| && Moving(t, H, Prefix(s, k + 1), s[k].(dib := 1), Home(s[k].hash, |t|), z)
  {
    hide Placed, Graded, Distinct, Holds, Prefix, Stores, Carries;
    PrefixSub(s, m, k);
    FreshKey(s, k);
    VacantExists(t, Prefix(s, k));
    z :| Vacant(t, z);
    NotStored(t, Prefix(s, k), s[k].item.key);
    PrefixNext(s, k);
    CarriedHome(t, H, s[k].(dib := 1));
  }

  lemma CarriedHome(t: seq<Bucket>, H: Hash, e: Bucket)
    requires t != [] && e.dib == 1 && e.hash == Clip(H(e.item.key))
    ensures Carries(t, H, e, Home(e.hash, |t|))
  {
  }

  /** The key of bucket `k` is not among those of the buckets before it. */
  lemma FreshKey(s: seq<Bucket>, k: nat)
    requires Distinct(s) && k < |s| && s[k].dib > 0
    ensures s[k].item.key !in Prefix(s, k)
  {
    PrefixKeys(s, k);
  }

  lemma PrefixNext(s: seq<Bucket>, k: nat)
    requires k < |s| && s[k].dib > 0 && s[k].item.key !in Prefix(s, k)
    ensures Prefix(s, k + 1) == Prefix(s, k)[s[k].item.key := s[k].item.val]
    ensures Prefix(s, k + 1) - {s[k].item.key} == Prefix(s, k)
  {
  }

  lemma NotStored(t: seq<Bucket>, m: map<Bytes, Bytes>, k: Bytes)
    requires Holds(t, m) && k !in m
    ensures !Stores(t, k)
  {
  }

  // ----- iteration -----

  /** The items of the occupied buckets, in bucket order. */
  function Stored(s: seq<Bucket>): seq<Entry>
  {
    if s == [] then [] else (if s[0].dib > 0 then [s[0].item] else []) + Stored(s[1..])
  }

  lemma {:induction false} StoredIn(s: seq<Bucket>, e: Entry)
    ensures e in Stored(s) <==> exists p :: 0 <= p < |s| && s[p].dib > 0 && s[p].item == e
    decreases |s|
  {
    if s != [] {
      StoredIn(s[1..], e);
      assert forall p :: 0 < p < |s| ==> s[p] == s[1..][p - 1];
      assert forall p :: 0 <= p < |s[1..]| ==> s[1..][p] == s[p + 1];
    }
  }

  ghost predicate KeysApart(items: seq<Entry>)
  {
    forall i, j | 0 <= i < j < |items| :: items[i].key != items[j].key
  }

  lemma {:induction false} StoredApart(s: seq<Bucket>)
    requires Distinct(s)
    ensures KeysApart(Stored(s))
    decreases |s|
  {
    if s != [] {
      var t := s[1..];
      assert forall p :: 0 <= p < |t| ==> t[p] == s[p + 1];
      StoredApart(t);
      forall j | 0 <= j < |Stored(t)| && s[0].dib > 0
        ensures Stored(t)[j].key != s[0].item.key
      {
        StoredIn(t, Stored(t)[j]);
      }
    }
  }

  lemma {:induction false} CountKeys(items: seq<Entry>, keys: set<Bytes>)
    requires KeysApart(items)
    requires forall k :: k in keys <==> exists i :: 0 <= i < |items| && items[i].key == k
    ensures |items| == |keys|
    decreases |items|
  {
    if items == [] {
      assert keys == {};
    } else {
      var n := |items| - 1;
      var k := items[n].key;
      assert k in keys;
      CountKeys(items[..n], keys - {k});
    }
  }

  /** Going through the buckets meets every binding of the map, each exactly once, and nothing else. */
  lemma StoredOnce(s: seq<Bucket>, m: map<Bytes, Bytes>)
    requires Distinct(s) && Holds(s, m)
    ensures KeysApart(Stored(s)) && |Stored(s)| == |m|
    ensures forall e :: e in Stored(s) <==> e.key in m && m[e.key] == e.val
  {
    StoredApart(s);
    forall e
      ensures e in Stored(s) <==> e.key in m && m[e.key] == e.val
    {
      StoredIn(s, e);
      if e.key in m && m[e.key] == e.val {
        assert Stores(s, e.key);
      }
    }
    var items := Stored(s);
    forall k
      ensures k in m.Keys <==> exists i :: 0 <= i < |items| && items[i].key == k
    {
      if k in m {
        assert Entry(k, m[k]) in items;
      }
    }
    CountKeys(items, m.Keys);
  }

  /** What is left of them from bucket `i` on. */
  function StoredFrom(s: seq<Bucket>, i: nat): seq<Entry>
  {
    if i < |s| then Stored(s[i..]) else []
  }

  /** Skipping empty buckets skips no item. */
  lemma StoredStep(s: seq<Bucket>, i: nat)
    requires i < |s|
    ensures StoredFrom(s, i) == if s[i].dib > 0 then [s[i].item] + StoredFrom(s, i + 1) else StoredFrom(s, i + 1)
  {
    assert s[i..][1..] == s[i + 1..];
  }
}
