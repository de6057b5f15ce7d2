/** The open-addressed hash map: a ring of buckets updated in place, agreeing at all times with one finite map. */
module HashMaps {
  import opened Bits
  import opened RobinHood
  import opened Sizing

  class HashMap {
    const H: Hash                    // the hash callback, a function of the key
    var buckets: array<Bucket>
    var nbuckets: nat
    var cap: nat
    var count: nat
    var mask: nat
    var growat: nat
    var shrinkat: nat
    var growpower: nat
    var oom: bool
    var spare: Bucket
    var edata: Bucket
    ghost var Model: map<Bytes, Bytes>

    ghost function Shape(): Shape
      reads this`nbuckets, this`cap, this`count, this`growat, this`shrinkat, this`growpower
    {
      Sizing.Shape(nbuckets, cap, count, growat, shrinkat, growpower)
    }

    /** The buckets in use. */
    ghost function Ring(): (s: seq<Bucket>)
      reads this`buckets, this`nbuckets, buckets
      requires nbuckets <= buckets.Length
      ensures |s| == nbuckets
    {
      buckets[..nbuckets]
    }

    ghost predicate Valid()
      reads this`nbuckets, this`cap, this`count, this`growat, this`shrinkat, this`growpower, this`mask, this`buckets,
            this`Model, buckets
    {
      && Shape().Ok()
      && nbuckets <= buckets.Length && mask == nbuckets - 1
      && Table(Ring(), H) && Holds(Ring(), Model) && count == |Model|
    }

    /** `Valid`, spelled out. */
    lemma Facts()
      requires Valid()
      ensures Shape().Ok() && IsPow2(nbuckets) && IsPow2(cap) && 1 < cap <= nbuckets <= buckets.Length
      ensures mask == nbuckets - 1 && count == |Model| < nbuckets && Ring() == buckets[..nbuckets]
      ensures Table(buckets[..nbuckets], H) && Holds(buckets[..nbuckets], Model)
    {
    }

    lemma ShapeIs()
      ensures Shape() == Sizing.Shape(nbuckets, cap, count, growat, shrinkat, growpower)
    {
    }

    lemma Restored()
      requires Shape().Ok() && nbuckets <= buckets.Length && mask == nbuckets - 1 && count == |Model|
      requires Table(buckets[..nbuckets], H) && Holds(buckets[..nbuckets], Model)
      ensures Valid()
    {
    }

    /** hashmap_new_with_allocator, with the outcome of its two allocations: NULL when either fails. */
    static method New(H: Hash, want: nat, mapOk: bool, bucketsOk: bool) returns (m: HashMap?)
      ensures m == null <==> !mapOk || !bucketsOk
      ensures m != null ==> m.Valid() && fresh(m) && fresh(m.buckets) && m.H == H
      ensures m != null ==> m.Model == map[] && m.Shape() == NewShape(want) && !m.oom && m.buckets.Length == m.nbuckets
      ensures m != null ==> forall p | 0 <= p < m.nbuckets :: m.buckets[p].dib == 0
    {
      if !mapOk || !bucketsOk {
        return null;
      }
      m := new HashMap(H, want);
    }

    constructor (H: Hash, want: nat)
      ensures Valid() && fresh(buckets) && this.H == H
      ensures Model == map[] && Shape() == NewShape(want) && !oom
      ensures 10 * growat <= 6 * nbuckets < 10 * (growat + 1) && 10 * shrinkat <= nbuckets < 10 * (shrinkat + 1)
      ensures buckets.Length == nbuckets && forall p | 0 <= p < nbuckets :: buckets[p].dib == 0
    {
      hide Table, Holds, IsPow2, Doubled, RoundUp;
      NewOk(want);
      var ncap := Capacity(want);
      var zero := Bucket(0, 0, Entry([], []));
      this.H := H;
      cap, nbuckets, mask, count := ncap, ncap, ncap - 1, 0;
      buckets := new Bucket[ncap](_ => zero);
      growpower := 1;
      growat, shrinkat := 6 * ncap / 10, ncap / 10;
      spare, edata, oom := zero, zero, false;
      Model := map[];
      new;
      EmptyTable(buckets[..nbuckets], H);
    }

    static method Capacity(want: nat) returns (ncap: nat)
      ensures ncap == RoundUp(want) && ncap > 0
    {
      ncap := MIN_CAP;
      if want >= ncap {
        while ncap < want
          invariant ncap > 0 && Doubled(ncap, want) == Doubled(MIN_CAP, want)
          decreases want - ncap
        {
          ncap := ncap * 2;
        }
      }
    }

    /** resize0: rehash into a new table of the buckets that `newCap` rounds up to. Fails, changing nothing, when
        allocation fails. */
    method Resize(newCap: nat, allocOk: bool) returns (ok: bool)
      requires Valid() && count < RoundUp(newCap)
      modifies this`buckets, this`nbuckets, this`mask, this`growat, this`shrinkat, buckets
      ensures ok == allocOk
      ensures !ok ==> unchanged(this) && unchanged(buckets)
      ensures ok ==> Shape() == Rehashed(old(Shape()), RoundUp(newCap)) && fresh(buckets)
      ensures nbuckets <= buckets.Length && mask == nbuckets - 1
      ensures Table(buckets[..nbuckets], H) && Holds(buckets[..nbuckets], Model)
    {
      hide Table, Holds, IsPow2, Doubled, Valid, RoundUp;
      Facts();
      var map2 := New(H, newCap, allocOk, allocOk);
      if map2 == null {
        return false;
      }
      map2.Facts();
      var dst, n := map2.buckets, nbuckets;
      ghost var s, m := buckets[..n], Model;
      assert dst[..] == dst[..map2.nbuckets];
      RehashBuckets(buckets, n, dst, map2.mask, H, s, m);
      buckets := map2.buckets;
      nbuckets := map2.nbuckets;
      mask := map2.mask;
      growat := map2.growat;
      shrinkat := map2.shrinkat;
      assert buckets[..nbuckets] == dst[..];
      return true;
    }

    /** The outer loop of resize0: every occupied bucket of the old array is re-homed in the new one. */
    static method RehashBuckets(src: array<Bucket>, n: nat, dst: array<Bucket>, dstMask: nat, H: Hash,
                                ghost s: seq<Bucket>, ghost m: map<Bytes, Bytes>)
      requires src != dst && dstMask == dst.Length - 1 && IsPow2(dst.Length)
      requires n <= src.Length && src[..n] == s
      requires Table(s, H) && Holds(s, m) && |m| < dst.Length
      requires Table(dst[..], H) && Holds(dst[..], map[])
      modifies src, dst
      ensures Table(dst[..], H) && Holds(dst[..], m)
    {
      hide *;
      PrefixNone(s);
      var i: nat := 0;
      while i < n
        invariant i <= n
        invariant forall p | i <= p < n :: src[p] == s[p]
        invariant Table(dst[..], H) && Holds(dst[..], Prefix(s, i))
      {
        if src[i].dib != 0 {
          Rehome(src, i, dst, dstMask, H, s, m);
        } else {
          PrefixSkip(s, i);
        }
        i := i + 1;
      }
      PrefixAll(s, m);
    }

    /** The inner loop of resize0: bucket `i` of the old array is re-homed in `dst`; displaced items pass through it. */
    static method Rehome(src: array<Bucket>, i: nat, dst: array<Bucket>, dstMask: nat, H: Hash,
                         ghost s: seq<Bucket>, ghost m: map<Bytes, Bytes>)
      requires src != dst && dstMask == dst.Length - 1 && IsPow2(dst.Length)
      requires i < |s| <= src.Length && src[i] == s[i] && s[i].dib != 0
      requires Table(s, H) && Holds(s, m) && |m| < dst.Length
      requires Table(dst[..], H) && Holds(dst[..], Prefix(s, i))
      modifies src, dst
      ensures forall p | 0 <= p < src.Length && p != i :: src[p] == old(src[p])
      ensures Table(dst[..], H) && Holds(dst[..], Prefix(s, i + 1))
    {
      hide *;
      ghost var target := Prefix(s, i + 1);
      ghost var z := MoveStart(s, m, i, dst[..], H);
      src[i] := src[i].(dib := 1);
      var j: nat := BitAnd(src[i].hash, dstMask);
      MaskedSlots(src[i].hash, 0, dstMask, dst.Length);
      ghost var t, e, rest := dst[..], src[i], src[..];
      while true
        invariant src[..] == rest[i := e]
        invariant dst[..] == t && src[i] == e && |t| == dst.Length && j < |t| && z < |t|
        invariant Moving(t, H, target, e, j, z)
        decreases Dist(j, z, |t|)
      {
        if dst[j].dib == 0 {
          MoveEnd(t, H, target, e, j, z);
          dst[j] := src[i];
          assert dst[..] == t[j := e];
          break;
        }
        MoveStep(t, H, target, e, j, z);
        if dst[j].dib < src[i].dib {
          var spare := dst[j];
          dst[j] := src[i];
          src[i] := spare;
          t, e := t[j := e], t[j];
        }
        MaskedSlots(0, j, dstMask, dst.Length);
        j := BitAnd(j + 1, dstMask);
        src[i] := src[i].(dib := src[i].dib + 1);
        e := e.(dib := e.dib + 1);
      }
    }

    /** hashmap_set_with_hash: binds the item's key to it and returns the item it replaced, if any. When the table is
        full and cannot grow for lack of memory, `oom` is set and nothing changes. */
    method SetWithHash(item: Entry, hash: nat, allocOk: bool) returns (replaced: Option<Entry>)
      requires Valid() && hash == H(item.key)
      modifies this, buckets
      ensures Valid() && (buckets == old(buckets) || fresh(buckets))
      ensures SetEffect(old(Shape()), item.key in old(Model), allocOk).oom == oom
      ensures oom <==> old(count) == old(growat) && !allocOk
      ensures SetEffect(old(Shape()), item.key in old(Model), allocOk).shape == Shape()
      ensures Model == if oom then old(Model) else old(Model)[item.key := item.val]
      ensures replaced == if oom || item.key !in old(Model) then None else Some(Entry(item.key, old(Model)[item.key]))
    {
      hide Table, Holds, IsPow2, Doubled, Valid, SetEffect, Inserted, Grown, Sizing.Shape.Ok, Ring;
      Facts();
      SetSplit(Shape(), item.key in Model, allocOk);
      oom := false;
      var ok := GrowIfFull(allocOk);
      if !ok {
        oom := true;
        return None;
      }
      replaced := Bind(item, Clip(hash));
    }

    /** The growing step at the head of hashmap_set_with_hash. */
    method GrowIfFull(allocOk: bool) returns (ok: bool)
      requires Valid()
      modifies this`buckets, this`nbuckets, this`mask, this`growat, this`shrinkat, buckets
      ensures Valid() && (buckets == old(buckets) || fresh(buckets))
      ensures ok <==> old(count) != old(growat) || allocOk
      ensures Shape() == if old(count) == old(growat) && allocOk
                         then Grown(old(Shape())) else old(Shape())
      ensures ok ==> count < growat
    {
      hide Table, Holds, IsPow2, Doubled, Valid;
      Facts();
      if count != growat {
        return true;
      }
      GrowTarget(nbuckets, growpower);
      RoundUpExact(nbuckets * Pow2(growpower));
      ok := Resize(nbuckets * Pow2(growpower), allocOk);
      Restored();
    }

    /** The rest of it, in a table with room. */
    method Bind(item: Entry, h: nat) returns (replaced: Option<Entry>)
      requires Valid() && h == Clip(H(item.key)) && count < growat
      modifies this`edata, this`spare, this`count, this`Model, buckets
      ensures Valid() && Shape() == Inserted(old(Shape()), item.key in old(Model))
      ensures Model == old(Model)[item.key := item.val]
      ensures replaced == if item.key !in old(Model) then None else Some(Entry(item.key, old(Model)[item.key]))
    {
      hide Table, Holds, IsPow2, Doubled, Valid, Ring;
      Facts();
      edata := Bucket(h, 1, item);
      replaced := Insert(buckets, nbuckets, mask, H, edata, Model);
      if replaced.None? {
        count := count + 1;
      } else {
        spare := spare.(item := replaced.value);
      }
      Model := Model[item.key := item.val];
      Restored();
    }

    /** The probe loop of hashmap_set_with_hash. */
    static method Insert(b: array<Bucket>, n: nat, mask: nat, H: Hash, first: Bucket, ghost m: map<Bytes, Bytes>)
      returns (replaced: Option<Entry>)
      requires IsPow2(n) && mask == n - 1 && n <= b.Length && |m| < n
      requires Table(b[..n], H) && Holds(b[..n], m)
      requires first.dib == 1 && first.hash == Clip(H(first.item.key))
      modifies b
      ensures Table(b[..n], H) && Holds(b[..n], m[first.item.key := first.item.val])
      ensures replaced == if first.item.key in m then Some(Entry(first.item.key, m[first.item.key])) else None
    {
      hide *;
      ghost var t, item, swapped := b[..n], first.item, false;
      ghost var z := ProbeStart(t, H, m, item);
      var entry := first;
      MaskedSlots(entry.hash, 0, mask, n);
      var i: nat := BitAnd(entry.hash, mask);
      while true
        invariant b[..n] == t && |t| == n && i < n && z < n
        invariant Probing(t, H, m, item, entry, i, z, swapped)
        decreases Dist(i, z, |t|)
      {
        if b[i].dib == 0 {
          ProbeEnd(t, H, m, item, entry, i, z, swapped);
          b[i] := entry;
          assert b[..n] == t[i := entry];
          return None;
        }
        ProbeMatch(t, H, m, item, entry, i, z, swapped);
        if entry.hash == b[i].hash && entry.item.key == b[i].item.key {
          replaced := Some(b[i].item);
          b[i] := b[i].(item := entry.item);
          assert b[..n] == t[i := t[i].(item := entry.item)];
          return;
        }
        ProbeStep(t, H, m, item, entry, i, z, swapped);
        if b[i].dib < entry.dib {
          var spare := b[i];
          b[i] := entry;
          t, swapped := t[i := entry], true;
          entry := spare;
          assert b[..n] == t;
        }
        MaskedSlots(0, i, mask, n);
        i := BitAnd(i + 1, mask);
        entry := entry.(dib := entry.dib + 1);
      }
    }

    /** hashmap_get_with_hash: exactly the stored item, or nothing. */
    method GetWithHash(key: Bytes, hash: nat) returns (found: Option<Entry>)
      requires Valid() && hash == H(key)
      ensures found == if key in Model then Some(Entry(key, Model[key])) else None
    {
      hide *;
      Facts();
      ghost var t := buckets[..nbuckets];
      ghost var z := SeekStart(t, H, Model, key);
      var h := Clip(hash);
      MaskedSlots(h, 0, mask, nbuckets);
      var i: nat := BitAnd(h, mask);
      while true
        invariant i < |t| && z < |t| && Seeking(t, H, Model, key, i, z)
        decreases Dist(i, z, |t|)
      {
        if buckets[i].dib == 0 {
          SeekEnd(t, H, Model, key, i, z);
          return None;
        }
        SeekStep(t, H, Model, key, i, z);
        if buckets[i].hash == h && buckets[i].item.key == key {
          return Some(buckets[i].item);
        }
        MaskedSlots(0, i, mask, nbuckets);
        i := BitAnd(i + 1, mask);
      }
    }

    /** hashmap_delete_with_hash: unbinds the key and returns its item, or nothing when the key is absent. The table
        may then shrink; a failed allocation there is ignored. */
    method DeleteWithHash(key: Bytes, hash: nat, allocOk: bool) returns (removed: Option<Entry>)
      requires Valid() && hash == H(key)
      modifies this, buckets
      ensures Valid() && (buckets == old(buckets) || fresh(buckets)) && !oom
      ensures Shape() == DeleteEffect(old(Shape()), key in old(Model), allocOk).shape
      ensures Model == old(Model) - {key}
      ensures removed == if key in old(Model) then Some(Entry(key, old(Model)[key])) else None
    {
      hide Table, Holds, IsPow2, Doubled, Valid, DeleteEffect, Sizing.Shape.Ok, Ring;
      Facts();
      DeleteSplit(Shape(), allocOk);
      removed := Unbind(key, hash);
      if removed.Some? {
        Shrink(allocOk);
      }
    }

    /** The part of hashmap_delete_with_hash up to the decrement of `count`. */
    method Unbind(key: Bytes, hash: nat) returns (removed: Option<Entry>)
      requires Valid() && hash == H(key)
      modifies this`oom, this`spare, this`count, this`Model, buckets
      ensures Valid() && !oom && Model == old(Model) - {key}
      ensures removed == if key in old(Model) then Some(Entry(key, old(Model)[key])) else None
      ensures Shape() == if removed.None? then old(Shape()) else old(Shape()).(count := old(count) - 1)
    {
      hide *;
      Facts();
      oom := false;
      removed := Remove(buckets, nbuckets, mask, H, key, hash, Model);
      Settle(key, removed);
    }

    method Settle(key: Bytes, removed: Option<Entry>)
      requires Shape().Ok() && nbuckets <= buckets.Length && mask == nbuckets - 1 && count == |Model|
      requires Table(buckets[..nbuckets], H) && Holds(buckets[..nbuckets], Model - {key})
      requires removed.Some? <==> key in Model
      modifies this`spare, this`count, this`Model
      ensures Valid() && Model == old(Model) - {key}
      ensures Shape() == if removed.None? then old(Shape()) else old(Shape()).(count := old(count) - 1)
    {
      hide *;
      if removed.None? {
        NoKey(Model, key);
        Restored();
      } else {
        ghost var t := buckets[..nbuckets];
        spare := spare.(item := removed.value);
        assert buckets[..nbuckets] == t;
        Discount(key);
      }
    }

    /** The bookkeeping behind a removal. */
    method Discount(key: Bytes)
      requires Shape().Ok() && nbuckets <= buckets.Length && mask == nbuckets - 1 && count == |Model|
      requires Table(buckets[..nbuckets], H) && Holds(buckets[..nbuckets], Model - {key}) && key in Model
      modifies this`count, this`Model
      ensures Valid() && Model == old(Model) - {key} && Shape() == old(Shape()).(count := old(count) - 1)
    {
      hide *;
      ShapeIs();
      CountDown(Shape());
      CountKey(Model, key);
      ghost var t := buckets[..nbuckets];
      count := count - 1;
      Model := Model - {key};
      ShapeIs();
      assert buckets[..nbuckets] == t;
      Restored();
    }

    /** The shrinking step at the end of hashmap_delete_with_hash. */
    method Shrink(allocOk: bool)
      requires Valid()
      modifies this`buckets, this`nbuckets, this`mask, this`growat, this`shrinkat, buckets
      ensures Valid() && (buckets == old(buckets) || fresh(buckets))
      ensures Shape() == if old(nbuckets > cap && count <= shrinkat && allocOk)
              then Rehashed(old(Shape()), old(nbuckets) / 2)
                         else old(Shape())
    {
      hide Table, Holds, IsPow2, Doubled, Valid;
      Facts();
      if nbuckets > cap && count <= shrinkat {
        HalfTarget(Shape());
        RoundUpExact(nbuckets / 2);
        var ok := Resize(nbuckets / 2, allocOk);
        Restored();
      }
    }

    /** The probe loop and the backward shift of hashmap_delete_with_hash. */
    static method Remove(b: array<Bucket>, n: nat, mask: nat, H: Hash, key: Bytes, hash: nat,
                         ghost m: map<Bytes, Bytes>)
      returns (removed: Option<Entry>)
      requires IsPow2(n) && mask == n - 1 && 1 < n <= b.Length && |m| < n && hash == H(key)
      requires Table(b[..n], H) && Holds(b[..n], m)
      modifies b
      ensures Table(b[..n], H) && Holds(b[..n], m - {key})
      ensures removed == if key in m then Some(Entry(key, m[key])) else None
      ensures removed.None? ==> b[..] == old(b[..])
      ensures removed.Some? ==> exists i: nat, r: nat ::
                i < n && old(b[i].item) == removed.value && Vacated(old(b[..n]), b[..n], i, r)
    {
      hide *;
      ghost var s := b[..n];
      ghost var z := SeekStart(s, H, m, key);
      var h := Clip(hash);
      MaskedSlots(h, 0, mask, n);
      var i: nat := BitAnd(h, mask);
      while true
        invariant i < n && z < n && |s| == n && b[..n] == s && b[..] == old(b[..])
        invariant Seeking(s, H, m, key, i, z)
        decreases Dist(i, z, |s|)
      {
        if b[i].dib == 0 {
          SeekEnd(s, H, m, key, i, z);
          assert m - {key} == m;
          return None;
        }
        SeekStep(s, H, m, key, i, z);
        if b[i].hash == h && b[i].item.key == key {
          removed := Some(b[i].item);
          ghost var r := CloseGap(b, n, mask, H, i, m, z);
          assert old(b[i].item) == removed.value && Vacated(s, b[..n], i, r);
          return;
        }
        MaskedSlots(0, i, mask, n);
        i := BitAnd(i + 1, mask);
      }
    }

    static method CloseGap(b: array<Bucket>, n: nat, mask: nat, H: Hash, at: nat,
                           ghost m: map<Bytes, Bytes>, ghost z: nat)
      returns (ghost r: nat)
      requires IsPow2(n) && mask == n - 1 && 1 < n <= b.Length && at < n && b[at].dib > 0 && z < n && Vacant(b[..n], z)
      requires Table(b[..n], H) && Holds(b[..n], m)
      modifies b
      ensures Table(b[..n], H) && Holds(b[..n], m - {old(b[at]).item.key})
      ensures Vacated(old(b[..n]), b[..n], at, r)
    {
      hide *;
      ghost var s, rest := b[..n], m - {b[at].item.key};
      r := 0;
      ShiftStart(s, H, m, at, z);
      b[at] := b[at].(dib := 0);
      var i := at;
      ghost var t := s[at := s[at].(dib := 0)];
      while true
        invariant i < n && z < n && |s| == |t| == n && b[..n] == t
        invariant Shifting(s, t, H, rest, at, r, i, z)
        decreases Dist(i, z, |t|)
      {
        var prev := i;
        MaskedSlots(0, i, mask, n);
        i := BitAnd(i + 1, mask);
        if b[i].dib <= 1 {
          ShiftEnd(s, t, H, rest, at, r, prev, z);
          b[prev] := b[prev].(dib := 0);
          assert b[..n] == t[prev := t[prev].(dib := 0)];
          return;
        }
        ShiftStep(s, t, H, rest, at, r, prev, z);
        PulledIs(b[i]);
        b[prev] := b[i];
        b[prev] := b[prev].(dib := b[prev].dib - 1);
        t, r := t[prev := Pulled(t[i])], r + 1;
        assert b[..n] == t;
      }
    }

    static method Wipe(b: array<Bucket>, n: nat, H: Hash)
      requires n <= b.Length
      modifies b
      ensures Table(b[..n], H) && Holds(b[..n], map[])
    {
      hide Table, Holds;
      forall i | 0 <= i < n {
        b[i] := Bucket(0, 0, Entry([], []));
      }
      EmptyTable(b[..n], H);
    }

    /** hashmap_clear: forgets everything. When the smaller array cannot be allocated, the old one is kept and only
        partly used. */
    method Clear(updateCap: bool, allocOk: bool)
      requires Valid()
      modifies this, buckets
      ensures Valid() && (buckets == old(buckets) || fresh(buckets))
      ensures Model == map[] && Shape() == ClearEffect(old(Shape()), updateCap).shape
      ensures count == 0 && nbuckets == cap == if updateCap then old(nbuckets) else old(cap)
      ensures 4 * growat <= 3 * nbuckets < 4 * (growat + 1) && 10 * shrinkat <= nbuckets < 10 * (shrinkat + 1)
    {
      hide *;
      Facts();
      ShapeIs();
      ClearKeepsOk(Shape(), updateCap);
      count := 0;
      Reallocate(updateCap, allocOk);
      Wipe(buckets, nbuckets, H);
      mask := nbuckets - 1;
      growat := 3 * nbuckets / 4;
      shrinkat := nbuckets / 10;
      Model := map[];
      ShapeIs();
      Restored();
    }

    /** The part of hashmap_clear that settles the capacity and the array. */
    method Reallocate(updateCap: bool, allocOk: bool)
      requires cap <= nbuckets <= buckets.Length
      modifies this`cap, this`nbuckets, this`buckets
      ensures (buckets == old(buckets) || fresh(buckets)) && nbuckets <= buckets.Length
      ensures nbuckets == (if updateCap then old(nbuckets) else old(cap)) == cap
    {
      if updateCap {
        cap := nbuckets;
      } else if nbuckets != cap {
        if allocOk {
          buckets := new Bucket[cap](_ => Bucket(0, 0, Entry([], [])));
        }
        nbuckets := cap;
      }
    }

    /** What an iteration from cursor `i` has still to yield. */
    ghost function Ahead(i: nat): seq<Entry>
      reads this, buckets
      requires Valid()
    {
      StoredFrom(Ring(), i)
    }

    /** An iteration from 0 has the whole map before it, each key once. */
    lemma AheadOfAll()
      requires Valid()
      ensures KeysApart(Ahead(0)) && |Ahead(0)| == count
      ensures forall e :: e in Ahead(0) <==> e.key in Model && Model[e.key] == e.val
    {
      Facts();
      assert Ring()[0..] == Ring();
      StoredOnce(Ring(), Model);
    }

    lemma AheadStep(i: nat)
      requires Valid()
      ensures nbuckets <= buckets.Length
      ensures i < nbuckets ==> Ahead(i) == if buckets[i].dib > 0 then [buckets[i].item] + Ahead(i + 1) else Ahead(i + 1)
      ensures i >= nbuckets ==> Ahead(i) == []
    {
      if i < nbuckets {
        StoredStep(Ring(), i);
      }
    }

    /** hashmap_iter: the next item from the cursor on, and the cursor behind it. */
    method Iter(i: nat) returns (found: bool, next: nat, item: Entry)
      requires Valid()
      ensures found ==> i < next <= nbuckets && Ahead(i) == [item] + Ahead(next)
      ensures !found ==> Ahead(i) == []
    {
      hide *;
      next, item := i, Entry([], []);
      while true
        invariant i <= next && Ahead(i) == Ahead(next)
        decreases nbuckets - next
      {
        AheadStep(next);
        if next >= nbuckets {
          return false, next, item;
        }
        var bucket := buckets[next];
        next := next + 1;
        if bucket.dib > 0 {
          return true, next, bucket.item;
        }
      }
    }
  }
}
