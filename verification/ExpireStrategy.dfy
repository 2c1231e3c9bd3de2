/** Include/Poco/ExpireStrategy.h and AccessExpireStrategy.h: two indexes that point at each other. */
module ExpireStrategy {
  import opened TimeIndex
  import opened Wrappers
  import opened TimedMap

  const SMALLEST: int := 25000

  /** The constructor as its callers see it, in milliseconds; None is the exception it throws. */
  method Create<K(==,!new)>(milliseconds: int, onAccess: bool) returns (r: Option<ExpireStrategy<K>>)
    ensures r.Some? <==> milliseconds >= 25
    ensures r.Some? ==> fresh(r.value) && r.value.Valid() && r.value.times == map[]
                        && r.value.policy == Policy(milliseconds * 1000, onAccess)
  {
    if milliseconds * 1000 < SMALLEST { return None; }
    var strategy := new ExpireStrategy<K>(milliseconds * 1000, onAccess);
    return Some(strategy);
  }

  class ExpireStrategy<K(==,!new)> {
    const policy: Policy
    var keys: map<K, nat>
    var keyIndex: seq<Entry<K>>
    var nextHandle: nat
    ghost var times: map<K, Time>

    /** keys and keyIndex are inverses of each other, and times is what both say. */
    ghost predicate Valid() reads this {
      policy.expire >= SMALLEST && Agree(keys, keyIndex, times, nextHandle)
    }

    constructor (expireTime: int, onAccess: bool)
      requires expireTime >= SMALLEST
      ensures Valid() && policy == Policy(expireTime, onAccess) && times == map[]
    {
      policy := Policy(expireTime, onAccess);
      keys := map[];
      keyIndex := [];
      nextHandle := 0;
      times := map[];
    }

    method OnAdd(key: K, now: Time)
      requires Valid()
      modifies this
      ensures Valid() && times == old(times)[key := now]
    {
      if key in keys {
        ReplaceAgrees(keys, keyIndex, times, nextHandle, key, now);
      } else {
        InsertAgrees(keys, keyIndex, times, nextHandle, key, now);
      }
      var it := Entry(nextHandle, now, key);
      nextHandle := nextHandle + 1;
      keyIndex := Insert(keyIndex, it);
      if key in keys { keyIndex := Erase(keyIndex, keys[key]); }
      keys := keys[key := it.handle];
      times := times[key := now];
    }

    method OnRemove(key: K)
      requires Valid()
      modifies this
      ensures Valid() && times == old(times) - {key}
    {
      if key in keys {
        EraseAgrees(keys, keyIndex, times, nextHandle, key);
        keyIndex := Erase(keyIndex, keys[key]);
        keys := keys - {key};
      }
      times := times - {key};
    }

    /** AbstractStrategy::onUpdate. */
    method OnUpdate(key: K, now: Time)
      requires Valid()
      modifies this
      ensures Valid() && times == old(times)[key := now]
    {
      OnRemove(key);
      OnAdd(key, now);
    }

    /** Nothing in ExpireStrategy; in AccessExpireStrategy an entry that has not expired starts anew. */
    method OnGet(key: K, now: Time)
      requires Valid()
      modifies this
      ensures Valid()
      ensures times == if policy.onAccess && key in old(times) && now < old(times)[key] + policy.expire
                       then old(times)[key := now] else old(times)
    {
      if policy.onAccess && key in keys {
        var time := TimeOf(key);
        if !Elapsed(policy, time, now) {
          ReplaceAgrees(keys, keyIndex, times, nextHandle, key, now);
          keyIndex := Erase(keyIndex, keys[key]);
          var it := Entry(nextHandle, now, key);
          nextHandle := nextHandle + 1;
          keyIndex := Insert(keyIndex, it);
          keys := keys[key := it.handle];
          times := times[key := now];
        }
      }
    }

    /** it->second->first: the time of the index entry that the key's iterator points to. */
    method TimeOf(key: K) returns (time: Time)
      requires Valid() && key in keys
      ensures time == times[key]
    {
      var e :| e in keyIndex && e.handle == keys[key];
      time := e.time;
      SameHandle(keyIndex, e, Entry(keys[key], times[key], key));
    }

    method OnClear()
      requires Valid()
      modifies this
      ensures Valid() && times == map[]
    {
      keys := map[];
      keyIndex := [];
      times := map[];
    }

    method OnIsValid(key: K, now: Time) returns (valid: bool)
      requires Valid()
      ensures valid <==> key in times && now < times[key] + policy.expire
    {
      if key !in keys { return false; }
      var time := TimeOf(key);
      valid := !Elapsed(policy, time, now);
    }

    /** Stops at the first entry that has not expired, and still finds every one that has. */
    method OnReplace(now: Time) returns (elemsToRemove: set<K>)
      requires Valid()
      ensures elemsToRemove == set k | k in times && times[k] + policy.expire <= now
    {
      elemsToRemove := {};
      var i := 0;
      while i < |keyIndex| && Elapsed(policy, keyIndex[i].time, now)
        invariant 0 <= i <= |keyIndex|
        invariant forall k :: k in elemsToRemove <==> exists j :: 0 <= j < i && keyIndex[j].key == k
        invariant forall j :: 0 <= j < i ==> Elapsed(policy, keyIndex[j].time, now)
      {
        elemsToRemove := elemsToRemove + {keyIndex[i].key};
        i := i + 1;
      }
      AllFound(i, elemsToRemove, now);
    }

    lemma AllFound(i: nat, elems: set<K>, now: Time)
      requires Valid() && i <= |keyIndex|
      requires forall k :: k in elems <==> exists j :: 0 <= j < i && keyIndex[j].key == k
      requires forall j :: 0 <= j < i ==> Elapsed(policy, keyIndex[j].time, now)
      requires i < |keyIndex| ==> !Elapsed(policy, keyIndex[i].time, now)
      ensures elems == set k | k in times && times[k] + policy.expire <= now
    {
      forall k ensures k in elems <==> k in times && Elapsed(policy, times[k], now) {
        if k in elems {
          var j :| 0 <= j < i && keyIndex[j].key == k;
          assert keyIndex[j] in keyIndex;
        }
        if k in times && Elapsed(policy, times[k], now) {
          var j :| 0 <= j < |keyIndex| && keyIndex[j] == Entry(keys[k], times[k], k);
          assert j < i;
        }
      }
    }
  }
}
