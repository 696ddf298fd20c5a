/** The backend's registry of query result buffers (`ResultBufferMgr`): a
    map from fragment-instance id to its result buffer, and an ordered map
    from a cancellation deadline to the ids that expire then, swept by a
    background thread. */
module Runtime {
  import opened Wrappers

  /** A `TUniqueId`: a query or fragment-instance id. */
  datatype UniqueId = UniqueId(hi: int, lo: int)

  /** The two concrete result buffer classes the manager creates. */
  datatype BufferKind = ArrowFlight | MySql

  /** A result block buffer as the manager sees it: the id it was made for,
      its class and its queue size. */
  datatype ResultBuffer = ResultBuffer(id: UniqueId, kind: BufferKind, bufferSize: int)

  /** The part of `doris::Status` these operations return. */
  datatype Status = OK | InternalError(msg: string, id: UniqueId)

  const ALREADY_EXIST := "ResultBlockBuffer already exist"
  const NO_ARROW_SCHEMA := "no arrow schema for this query, maybe query has been canceled"

  /** One entry of the ordered `_timeout_map`: a deadline and the ids, in
      insertion order, to cancel at that deadline. */
  datatype Bucket = Bucket(time: int, ids: seq<UniqueId>)

  /** `std::map` keeps its keys unique and iterates them in increasing order;
      the model keeps the entries in that order. */
  ghost predicate Sorted(bs: seq<Bucket>)
  {
    forall i, j :: 0 <= i < j < |bs| ==> bs[i].time < bs[j].time
  }

  /** The deadlines present in the timeout map. */
  function Times(bs: seq<Bucket>): set<int>
  {
    set i | 0 <= i < |bs| :: bs[i].time
  }

  lemma TimesCons(b: Bucket, bs: seq<Bucket>)
    ensures Times([b] + bs) == {b.time} + Times(bs)
  {
    var r := [b] + bs;
    forall x | x in Times(r) ensures x in {b.time} + Times(bs) {
      var i :| 0 <= i < |r| && r[i].time == x;
      if i > 0 { assert r[i] == bs[i - 1]; }
    }
    forall x | x in Times(bs) ensures x in Times(r) {
      var i :| 0 <= i < |bs| && bs[i].time == x;
      assert r[i + 1] == bs[i];
    }
    assert r[0].time == b.time;
  }

  /** The timeout map as an unordered map from deadline to ids. */
  function ToMap(bs: seq<Bucket>): map<int, seq<UniqueId>>
  {
    if bs == [] then map[] else ToMap(bs[1..])[bs[0].time := bs[0].ids]
  }

  /** The unordered view has exactly the deadlines of the ordered map. */
  lemma {:induction false} ToMapKeys(bs: seq<Bucket>)
    ensures ToMap(bs).Keys == Times(bs)
  {
    if bs != [] {
      ToMapKeys(bs[1..]);
      assert bs == [bs[0]] + bs[1..];
      TimesCons(bs[0], bs[1..]);
    }
  }

  /** The ids due at deadline `t`; an absent deadline holds none. */
  function DueAt(bs: seq<Bucket>, t: int): seq<UniqueId>
  {
    var m := ToMap(bs);
    if t in m then m[t] else []
  }

  /** `cancel_at_time(t, id)` on the ordered map: find the bucket for `t`,
      creating an empty one at its place in the order when there is none,
      and push `id` on its back. */
  function Append(bs: seq<Bucket>, t: int, id: UniqueId): seq<Bucket>
  {
    if bs == [] then [Bucket(t, [id])]
    else if bs[0].time == t then [Bucket(t, bs[0].ids + [id])] + bs[1..]
    else if t < bs[0].time then [Bucket(t, [id])] + bs
    else [bs[0]] + Append(bs[1..], t, id)
  }

  /** `cancel_at_time` adds the deadline `t` and no other. */
  lemma {:induction false} AppendTimes(bs: seq<Bucket>, t: int, id: UniqueId)
    ensures Times(Append(bs, t, id)) == Times(bs) + {t}
  {
    if bs == [] {
      TimesCons(Bucket(t, [id]), []);
    } else {
      assert bs == [bs[0]] + bs[1..];
      TimesCons(bs[0], bs[1..]);
      if bs[0].time == t {
        TimesCons(Bucket(t, bs[0].ids + [id]), bs[1..]);
      } else if t < bs[0].time {
        TimesCons(Bucket(t, [id]), bs);
      } else {
        AppendTimes(bs[1..], t, id);
        TimesCons(bs[0], Append(bs[1..], t, id));
      }
    }
  }

  /** `upper_bound(limit)` on the ordered map: the number of leading buckets
      whose deadline is at or before `limit`; every later bucket is due
      strictly after it. */
  function UpperBound(bs: seq<Bucket>, limit: int): (k: nat)
    requires Sorted(bs)
    ensures k <= |bs|
    ensures forall i :: 0 <= i < k ==> bs[i].time <= limit
    ensures forall i :: k <= i < |bs| ==> bs[i].time > limit
  {
    if bs == [] || bs[0].time > limit then 0
    else
      var k := UpperBound(bs[1..], limit);
      assert forall i :: 1 <= i < |bs| ==> bs[i] == bs[1..][i - 1];
      1 + k
  }

  /** The ids of a run of buckets, bucket by bucket, each bucket in order. */
  function Flatten(bs: seq<Bucket>): seq<UniqueId>
  {
    if bs == [] then [] else bs[0].ids + Flatten(bs[1..])
  }

  lemma {:induction false} FlattenSnoc(bs: seq<Bucket>, b: Bucket)
    ensures Flatten(bs + [b]) == Flatten(bs) + b.ids
  {
    if bs == [] {
      assert [] + [b] == [b];
      assert Flatten([b]) == b.ids + Flatten([]);
    } else {
      assert (bs + [b])[1..] == bs[1..] + [b];
      FlattenSnoc(bs[1..], b);
    }
  }

  /** An id is collected from a run of buckets exactly when one of them holds it. */
  lemma {:induction false} FlattenHolds(bs: seq<Bucket>, x: UniqueId)
    ensures x in Flatten(bs) <==> exists i :: 0 <= i < |bs| && x in bs[i].ids
  {
    if bs != [] {
      FlattenHolds(bs[1..], x);
      if x in Flatten(bs[1..]) {
        var i :| 0 <= i < |bs[1..]| && x in bs[1..][i].ids;
        assert x in bs[i + 1].ids;
      }
      if exists i :: 0 <= i < |bs| && x in bs[i].ids {
        var i :| 0 <= i < |bs| && x in bs[i].ids;
        if i > 0 { assert x in bs[1..][i - 1].ids; }
      }
    }
  }

  /** In an ordered timeout map each bucket's ids are what the map holds at its deadline. */
  lemma {:induction false} ToMapAt(bs: seq<Bucket>, i: nat)
    requires Sorted(bs) && i < |bs|
    ensures bs[i].time in ToMap(bs) && ToMap(bs)[bs[i].time] == bs[i].ids
  {
    if i > 0 {
      assert bs[1..][i - 1] == bs[i];
      ToMapAt(bs[1..], i - 1);
    }
  }

  /** `cancel_at_time` keeps the timeout map ordered. */
  lemma {:induction false} AppendSorted(bs: seq<Bucket>, t: int, id: UniqueId)
    requires Sorted(bs)
    ensures Sorted(Append(bs, t, id))
  {
    var r := Append(bs, t, id);
    if bs == [] {
    } else if bs[0].time == t {
      assert forall i :: 0 <= i < |bs| ==> r[i].time == bs[i].time;
    } else if t < bs[0].time {
      assert forall i :: 1 <= i < |r| ==> r[i] == bs[i - 1];
    } else {
      var tail := Append(bs[1..], t, id);
      AppendSorted(bs[1..], t, id);
      AppendTimes(bs[1..], t, id);
      assert r == [bs[0]] + tail;
      forall j | 0 < j < |r| ensures bs[0].time < r[j].time {
        assert r[j] == tail[j - 1];
        assert r[j].time in Times(tail);
        if r[j].time != t {
          var k :| 0 <= k < |bs[1..]| && bs[1..][k].time == r[j].time;
          assert bs[1..][k] == bs[k + 1];
        }
      }
    }
  }

  /** `cancel_at_time` appends `id` to the END of the bucket for `t` (an
      absent bucket counting as empty, duplicates kept) and leaves every
      other bucket as it was. */
  lemma {:induction false} AppendCorrect(bs: seq<Bucket>, t: int, id: UniqueId)
    requires Sorted(bs)
    ensures ToMap(Append(bs, t, id)) == ToMap(bs)[t := DueAt(bs, t) + [id]]
  {
    var r := Append(bs, t, id);
    if bs == [] {
      assert r[1..] == [];
      assert DueAt(bs, t) + [id] == [id];
    } else if bs[0].time == t {
      assert r[1..] == bs[1..];
    } else if t < bs[0].time {
      forall x | x in Times(bs) ensures x > t {
        var i :| 0 <= i < |bs| && bs[i].time == x;
      }
      ToMapKeys(bs);
      assert DueAt(bs, t) + [id] == [id];
      assert r[1..] == bs;
    } else {
      AppendCorrect(bs[1..], t, id);
      assert r[1..] == Append(bs[1..], t, id);
      assert DueAt(bs, t) == DueAt(bs[1..], t);
    }
  }

  /** One sweep drops exactly the buckets due at or before `limit`: what is
      left holds every later deadline with its ids unchanged. */
  lemma {:induction false} SweepKeepsLater(bs: seq<Bucket>, limit: int)
    requires Sorted(bs)
    ensures var k := UpperBound(bs, limit);
            ToMap(bs[k..]) == map t | t in ToMap(bs) && t > limit :: ToMap(bs)[t]
  {
    var k := UpperBound(bs, limit);
    var m := ToMap(bs);
    if bs == [] {
    } else if bs[0].time > limit {
      assert bs[k..] == bs;
      ToMapKeys(bs);
      forall t | t in m ensures t > limit {
        var i :| 0 <= i < |bs| && bs[i].time == t;
      }
    } else {
      assert Sorted(bs[1..]);
      SweepKeepsLater(bs[1..], limit);
      assert bs[k..] == bs[1..][k - 1..];
    }
  }

  /** The sweep collects every id of every due bucket and nothing else. */
  lemma SweepCollectsDue(bs: seq<Bucket>, limit: int, x: UniqueId)
    requires Sorted(bs)
    ensures var k := UpperBound(bs, limit);
            x in Flatten(bs[..k]) <==> exists i :: 0 <= i < |bs| && bs[i].time <= limit && x in bs[i].ids
  {
    var k := UpperBound(bs, limit);
    FlattenHolds(bs[..k], x);
    if exists i :: 0 <= i < |bs| && bs[i].time <= limit && x in bs[i].ids {
      var i :| 0 <= i < |bs| && bs[i].time <= limit && x in bs[i].ids;
      assert bs[..k][i] == bs[i];
    }
    if x in Flatten(bs[..k]) {
      var i :| 0 <= i < k && x in bs[..k][i].ids;
      assert bs[..k][i] == bs[i];
    }
  }

  /** The class a new buffer gets: Arrow Flight exactly when asked for. */
  function KindFor(arrowFlight: bool): (k: BufferKind)
    ensures k == ArrowFlight <==> arrowFlight
  {
    if arrowFlight then ArrowFlight else MySql
  }

  /** The deadline `create_sender` registers: the query's execution timeout
      from now, plus five seconds of slack. */
  function MaxTimeout(now: int, executionTimeout: int): (t: int)
    ensures t - now == executionTimeout + 5
  {
    now + executionTimeout + 5
  }

  class ResultBufferMgr {
    /** `_buffer_map`: live buffers by fragment-instance id. */
    var bufferMap: map<UniqueId, ResultBuffer>
    /** `_timeout_map`, in key order. */
    var timeouts: seq<Bucket>

    ghost predicate Valid()
      reads this
    {
      && Sorted(timeouts)
      && forall id :: id in bufferMap ==> bufferMap[id].id == id
    }

    constructor ()
      ensures Valid() && bufferMap == map[] && timeouts == []
    {
      bufferMap := map[];
      timeouts := [];
    }

    /** `create_sender`: refuse an id that already has a buffer; otherwise
        register a buffer of the requested class and schedule its
        cancellation at the query's deadline. */
    method CreateSender(id: UniqueId, bufferSize: int, arrowFlight: bool, now: int, executionTimeout: int)
      returns (st: Status, sender: Option<ResultBuffer>)
      requires Valid()
      modifies this
      ensures Valid()
      ensures id in old(bufferMap) ==>
                && st == InternalError(ALREADY_EXIST, id) && sender == None
                && bufferMap == old(bufferMap) && timeouts == old(timeouts)
      ensures id !in old(bufferMap) ==>
                && st == OK
                && sender == Some(ResultBuffer(id, KindFor(arrowFlight), bufferSize))
                && bufferMap == old(bufferMap)[id := sender.value]
                && timeouts == Append(old(timeouts), MaxTimeout(now, executionTimeout), id)
                && ToMap(timeouts) == ToMap(old(timeouts))[MaxTimeout(now, executionTimeout) :=
                     DueAt(old(timeouts), MaxTimeout(now, executionTimeout)) + [id]]
    {
      if id in bufferMap {
        return InternalError(ALREADY_EXIST, id), None;
      }
      var controlBlock := ResultBuffer(id, KindFor(arrowFlight), bufferSize);
      bufferMap := bufferMap[id := controlBlock];
      CancelAtTime(MaxTimeout(now, executionTimeout), id);
      st, sender := OK, Some(controlBlock);
    }

    /** `_find_control_block<T>`: the buffer registered for `id` when it is
        of the requested class (the `dynamic_pointer_cast` succeeds), else null. */
    function FindControlBlock(id: UniqueId, kind: BufferKind): (r: Option<ResultBuffer>)
      reads this
      ensures r.Some? <==> id in bufferMap && bufferMap[id].kind == kind
      ensures r.Some? ==> r.value == bufferMap[id] && r.value.kind == kind
    {
      if id in bufferMap && bufferMap[id].kind == kind then Some(bufferMap[id]) else None
    }

    /** `find_buffer<T>`: OK with the buffer exactly when one of the
        requested class is registered, else an internal error and null. */
    function FindBuffer(id: UniqueId, kind: BufferKind): (r: (Status, Option<ResultBuffer>))
      reads this
      ensures r.0 == OK <==> id in bufferMap && bufferMap[id].kind == kind
      ensures r.0 == OK ==> r.1 == Some(bufferMap[id])
      ensures r.0 != OK ==> r.0 == InternalError(NO_ARROW_SCHEMA, id) && r.1 == None
    {
      var buffer := FindControlBlock(id, kind);
      if buffer.None? then (InternalError(NO_ARROW_SCHEMA, id), None) else (OK, buffer)
    }

    /** `cancel`: report whether `id` had a buffer and drop it; every other
        entry and the timeout map stay as they were. */
    method Cancel(id: UniqueId) returns (exist: bool)
      requires Valid()
      modifies this
      ensures Valid()
      ensures exist == (id in old(bufferMap))
      ensures bufferMap == old(bufferMap) - {id}
      ensures !exist ==> bufferMap == old(bufferMap)
      ensures timeouts == old(timeouts)
    {
      exist := id in bufferMap;
      if exist {
        bufferMap := bufferMap - {id};
      }
    }

    /** `cancel_at_time`: append `id` to the bucket for `cancelTime`. */
    method CancelAtTime(cancelTime: int, id: UniqueId)
      requires Valid()
      modifies this
      ensures Valid()
      ensures timeouts == Append(old(timeouts), cancelTime, id)
      ensures ToMap(timeouts) == ToMap(old(timeouts))[cancelTime := DueAt(old(timeouts), cancelTime) + [id]]
      ensures bufferMap == old(bufferMap)
    {
      AppendSorted(timeouts, cancelTime, id);
      AppendCorrect(timeouts, cancelTime, id);
      timeouts := Append(timeouts, cancelTime, id);
    }

    /** The collection loops of `cancel_thread`: the ids of the first `end`
        buckets, in deadline order and then in bucket order. */
    method CollectDue(end: nat) returns (ids: seq<UniqueId>)
      requires end <= |timeouts|
      ensures ids == Flatten(timeouts[..end])
    {
      ids := [];
      var i := 0;
      while i < end
        invariant 0 <= i <= end
        invariant ids == Flatten(timeouts[..i])
      {
        var j := 0;
        while j < |timeouts[i].ids|
          invariant 0 <= j <= |timeouts[i].ids|
          invariant ids == Flatten(timeouts[..i]) + timeouts[i].ids[..j]
        {
          ids := ids + [timeouts[i].ids[j]];
          j := j + 1;
        }
        assert timeouts[i].ids[..j] == timeouts[i].ids;
        assert timeouts[..i + 1] == timeouts[..i] + [timeouts[i]];
        FlattenSnoc(timeouts[..i], timeouts[i]);
        i := i + 1;
      }
    }

    /** One iteration of `cancel_thread` at wall-clock time `now`: collect the
        ids of every bucket due at or before `now + 1` in deadline order,
        erase those buckets, then cancel each collected id. */
    method SweepOnce(now: int) returns (queryToCancel: seq<UniqueId>)
      requires Valid()
      modifies this
      ensures Valid()
      ensures var k := UpperBound(old(timeouts), now + 1);
              && queryToCancel == Flatten(old(timeouts)[..k])
              && timeouts == old(timeouts)[k..]
      ensures ToMap(timeouts) == map t | t in ToMap(old(timeouts)) && t > now + 1 :: ToMap(old(timeouts))[t]
      ensures bufferMap == old(bufferMap) - (set x | x in queryToCancel)
    {
      var end := UpperBound(timeouts, now + 1);
      queryToCancel := CollectDue(end);
      SweepKeepsLater(timeouts, now + 1);
      timeouts := timeouts[end..];
      assert Sorted(timeouts);

      var k := 0;
      while k < |queryToCancel|
        invariant 0 <= k <= |queryToCancel|
        invariant Valid()
        invariant timeouts == old(timeouts)[end..]
        invariant bufferMap == old(bufferMap) - (set x | x in queryToCancel[..k])
      {
        var _ := Cancel(queryToCancel[k]);
        assert queryToCancel[..k + 1] == queryToCancel[..k] + [queryToCancel[k]];
        k := k + 1;
      }
      assert queryToCancel[..k] == queryToCancel;
    }
  }
}
