/** The bodies of the keyed commands, on the hash map. */
module Execution {
  import opened Bits
  import opened RobinHood
  import opened HashMaps
  import opened Counter
  import opened Commands

  method ExecGet(db: HashMap, key: Bytes, hash: nat) returns (reply: Reply)
    requires db.Valid() && hash == db.H(key)
    ensures reply == ReplyTo(db.Model, Get(key))
    ensures reply == if key in db.Model then Bulk(db.Model[key]) else NullBulk
  {
    var entry := db.GetWithHash(key, hash);
    if entry.Some? {
      reply := Bulk(entry.value.val);
    } else {
      reply := NullBulk;
    }
  }

  /** SET answers OK even when the table could not grow and nothing was stored. */
  method ExecSet(db: HashMap, key: Bytes, val: Bytes, hash: nat, allocOk: bool) returns (reply: Reply)
    requires db.Valid() && hash == db.H(key)
    modifies db, db.buckets
    ensures db.Valid() && reply == ReplyTo(old(db.Model), Set(key, val))
    ensures db.Model == if db.oom then old(db.Model) else Apply(old(db.Model), Set(key, val))
    ensures db.Model == if db.oom then old(db.Model) else old(db.Model)[key := val]
    ensures db.oom <==> old(db.count) == old(db.growat) && !allocOk
  {
    hide HashMap.Valid;
    var existing := db.SetWithHash(Entry(key, val), hash, allocOk);
    reply := Status;
  }

  method ExecDel(db: HashMap, key: Bytes, hash: nat, allocOk: bool) returns (reply: Reply)
    requires db.Valid() && hash == db.H(key)
    modifies db, db.buckets
    ensures db.Valid() && reply == ReplyTo(old(db.Model), Del(key))
    ensures db.Model == Apply(old(db.Model), Del(key))
    ensures db.Model == old(db.Model) - {key} && reply == Integer(if key in old(db.Model) then 1 else 0)
  {
    hide HashMap.Valid;
    var entry := db.DeleteWithHash(key, hash, allocOk);
    var res := 0;
    if entry.Some? {
      res := 1;
    }
    reply := Integer(res);
  }

  /** try_modify_counter with the reply of its callers: a value that is no numeral is left alone and answered with 0. */
  method ExecAdd(db: HashMap, key: Bytes, delta: int, pad: byte, hash: nat, allocOk: bool) returns (reply: Reply)
    requires db.Valid() && hash == db.H(key)
    modifies db, db.buckets
    ensures db.Valid() && reply == ReplyTo(old(db.Model), Add(key, delta, pad))
    ensures db.Model == if old(db.count) == old(db.growat) && !allocOk then old(db.Model)
                        else Apply(old(db.Model), Add(key, delta, pad))
    ensures db.oom == if Current(old(db.Model), key, pad).None? then old(db.oom)
                      else old(db.count) == old(db.growat) && !allocOk
    ensures reply.Integer? && (db.Model == old(db.Model) || db.Model == old(db.Model)[key := Print(reply.v)])
  {
    hide HashMap.Valid, Numeral, Denotes, Wrap, Print;
    var val := 0;
    var entry := db.GetWithHash(key, hash);
    if entry.Some? {
      var ok, parsed := TryParseSignedInteger(entry.value.val + [pad], |entry.value.val|);
      if !ok {
        return Integer(0);
      }
      val := parsed;
    }
    val := Wrap(val + delta);
    var existing := db.SetWithHash(Entry(key, Print(val)), hash, allocOk);
    reply := Integer(val);
  }

  /** The argument of INCRBY (or, negated, of DECRBY): rejected unless it is a numeral that reads as non-negative. */
  method ReadDelta(buf: Bytes, len: nat, negate: bool) returns (delta: Option<int>)
    requires buf != [] && len <= |buf|
    ensures delta.Some? <==> Numeral(buf, len) && Wrap(Denotes(buf, len)) >= 0
    ensures delta.Some? ==> delta.value == if negate then -Wrap(Denotes(buf, len)) else Wrap(Denotes(buf, len))
    ensures len > 0 ==>
              var d := if buf[0] == 43 || buf[0] == 45 then buf[1..len] else buf[..len];
              var v := if buf[0] == 45 then -Value(d) else Value(d);
              && (delta.Some? <==> AllDigits(d) && Wrap(v) >= 0)
              && (delta.Some? ==> delta.value == if negate then -Wrap(v) else Wrap(v))
  {
    var ok, d := TryParseSignedInteger(buf, len);
    if !ok || d < 0 {
      return None;
    }
    return Some(if negate then -d else d);
  }
}
