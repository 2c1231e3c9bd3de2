/** Include/Poco/AbstractCache.h with one expiring strategy, which hears every event. The clock is read once
    in a call. */
module AbstractCache {
  import opened Wrappers
  import opened TimedMap
  import opened TimeIndex
  import Strategy = ExpireStrategy

  /** data and times have the keys of each other. What is in the cache is in the history, and what is in the
      history only has expired. */
  ghost predicate Keeps<K(!new), V>(p: Policy, data: map<K, V>, times: map<K, Time>, h: map<K, Stamped<V>>, now: Time) {
    && data.Keys == times.Keys
    && (forall k :: k in data ==> k in h && h[k] == Stamped(data[k], times[k]))
    && (forall k :: k in h && k !in data ==> Elapsed(p, h[k].at, now))
  }

  lemma PutKeeps<K(!new), V>(p: Policy, data: map<K, V>, times: map<K, Time>, h: map<K, Stamped<V>>, key: K, v: V,
                             was: Time, now: Time)
    requires Keeps(p, data, times, h, was) && was <= now
    ensures Keeps(p, data[key := v], times[key := now], h[key := Stamped(v, now)], now)
  {
  }

  lemma RemoveKeeps<K(!new), V>(p: Policy, data: map<K, V>, times: map<K, Time>, h: map<K, Stamped<V>>, key: K,
                                was: Time, now: Time)
    requires Keeps(p, data, times, h, was) && was <= now
    ensures Keeps(p, data - {key}, times - {key}, h - {key}, now)
    ensures (key in data ==> Elapsed(p, times[key], now)) ==> Keeps(p, data - {key}, times - {key}, h, now)
  {
  }

  lemma ReplaceKeeps<K(!new), V>(p: Policy, data: map<K, V>, times: map<K, Time>, h: map<K, Stamped<V>>, was: Time,
                                 now: Time)
    requires Keeps(p, data, times, h, was) && was <= now
    ensures var gone := set k | k in times && times[k] + p.expire <= now;
            && Keeps(p, data - gone, times - gone, h, now)
            && (data - gone).Keys == set k | k in h && now < h[k].at + p.expire
  {
  }

  lemma MinusMore<K, V>(m: map<K, V>, gone: set<K>, key: K)
    ensures m - gone - {key} == m - (gone + {key})
  {
  }

  lemma RemovePut<K, V>(m: map<K, V>, key: K, v: V)
    ensures (m - {key})[key := v] == m[key := v]
  {
  }

  /** What Get.notify and IsValid.notify do to the entry of a key that is there. */
  lemma GetKeeps<K(!new), V>(p: Policy, data: map<K, V>, times: map<K, Time>, h: map<K, Stamped<V>>, key: K,
                             was: Time, now: Time)
    requires Keeps(p, data, times, h, was) && was <= now && key in data
    ensures if Elapsed(p, times[key], now)
            then Keeps(p, data - {key}, times - {key}, After(p, h, Get(key, now)), now)
                 && Lookup(p, h, key, now) == None
            else Keeps(p, data, if p.onAccess then times[key := now] else times, After(p, h, Get(key, now)), now)
                 && Lookup(p, h, key, now) == Some(data[key])
  {
  }

  class AbstractCache<K(==,!new), V(!new)> {
    const strategy: Strategy.ExpireStrategy<K>
    var data: map<K, V>
    ghost var log: seq<Call<K, V>>
    ghost var history: map<K, Stamped<V>>
    ghost var clock: Time

    /** log holds the calls so far, history is the timed map they give, clock is the time of the last. */
    ghost predicate Valid() reads this, strategy {
      && strategy.Valid() && Keeps(strategy.policy, data, strategy.times, history, clock)
      && history == Replay(strategy.policy, log)
    }

    constructor (strategy: Strategy.ExpireStrategy<K>, now: Time)
      requires strategy.Valid() && strategy.times == map[]
      ensures Valid() && this.strategy == strategy && log == [] && clock == now
    {
      this.strategy := strategy;
      data := map[];
      log, history, clock := [], map[], now;
    }

    /** data, keys and keyIndex have the same keys, each once. */
    lemma IndexesAgree()
      requires Valid()
      ensures data.Keys == strategy.keys.Keys == (set e | e in strategy.keyIndex :: e.key)
      ensures forall i, j :: 0 <= i < j < |strategy.keyIndex| ==> strategy.keyIndex[i].key != strategy.keyIndex[j].key
    {
      var index := strategy.keyIndex;
      forall i, j | 0 <= i < j < |index| ensures index[i].key != index[j].key {
        assert index[i] in index && index[j] in index;
      }
      forall k | k in data ensures exists e :: e in index && e.key == k {
        assert Entry(strategy.keys[k], strategy.times[k], k) in index;
      }
    }

    /** Nothing happens when the key is not there. */
    method DoRemove(key: K)
      requires strategy.Valid() && data.Keys == strategy.times.Keys
      modifies this`data, strategy
      ensures strategy.Valid() && data.Keys == strategy.times.Keys
      ensures data == old(data) - {key} && strategy.times == old(strategy.times) - {key}
    {
      if key in data {
        strategy.OnRemove(key);
        data := data - {key};
      }
    }

    ghost method Record(c: Call<K, V>)
      requires history == Replay(strategy.policy, log)
      modifies this`log, this`history, this`clock
      ensures log == old(log) + [c] && clock == c.now
      ensures history == After(strategy.policy, old(history), c) && history == Replay(strategy.policy, log)
    {
      history := After(strategy.policy, history, c);
      assert (log + [c])[..|log|] == log;
      log := log + [c];
      clock := c.now;
    }

    method Remove(key: K, now: Time)
      requires Valid() && clock <= now
      modifies this, strategy
      ensures Valid() && log == old(log) + [Call.Remove(key, now)]
    {
      RemoveKeeps(strategy.policy, data, strategy.times, history, key, clock, now);
      DoRemove(key);
      Record(Call.Remove(key, now));
    }

    /** Afterwards the cache holds exactly the entries that have not expired. */
    method DoReplace(now: Time)
      requires Valid() && clock <= now
      modifies this`data, this`clock, strategy
      ensures Valid() && clock == now
      ensures data.Keys == set k | k in history && now < history[k].at + strategy.policy.expire
    {
      var delMe := strategy.OnReplace(now);
      ReplaceKeeps(strategy.policy, data, strategy.times, history, clock, now);
      RemoveAll(delMe);
      clock := now;
    }

    /** The loop of doReplace. */
    method RemoveAll(delMe: set<K>)
      requires strategy.Valid() && data.Keys == strategy.times.Keys
      modifies this`data, strategy
      ensures strategy.Valid() && data.Keys == strategy.times.Keys
      ensures data == old(data) - delMe && strategy.times == old(strategy.times) - delMe
    {
      ghost var d, t := data, strategy.times;
      var rest := delMe;
      ghost var gone: set<K> := {};
      while rest != {}
        invariant strategy.Valid() && data.Keys == strategy.times.Keys
        invariant data == d - gone && strategy.times == t - gone && gone + rest == delMe
      {
        var key :| key in rest;
        MinusMore(d, gone, key);
        MinusMore(t, gone, key);
        DoRemove(key);
        rest := rest - {key};
        gone := gone + {key};
      }
      assert gone == delMe;
    }

    method DoAdd(key: K, val: V, now: Time)
      requires Valid() && clock <= now
      modifies this, strategy
      ensures Valid() && log == old(log) + [Put(key, val, now)]
      ensures data.Keys == set k | k in history && now < history[k].at + strategy.policy.expire
    {
      PutKeeps(strategy.policy, data, strategy.times, history, key, val, clock, now);
      RemovePut(data, key, val);
      RemovePut(strategy.times, key, now);
      DoRemove(key);
      strategy.OnAdd(key, now);
      data := data[key := val];
      Record(Put(key, val, now));
      DoReplace(now);
    }

    method DoUpdate(key: K, val: V, now: Time)
      requires Valid() && clock <= now
      modifies this, strategy
      ensures Valid() && log == old(log) + [Put(key, val, now)]
      ensures data.Keys == set k | k in history && now < history[k].at + strategy.policy.expire
    {
      PutKeeps(strategy.policy, data, strategy.times, history, key, val, clock, now);
      if key !in data {
        strategy.OnAdd(key, now);
        data := data[key := val];
      } else {
        strategy.OnUpdate(key, now);
        data := data[key := val];
      }
      Record(Put(key, val, now));
      DoReplace(now);
    }

    method DoHas(key: K, now: Time) returns (result: bool)
      requires Valid() && clock <= now
      ensures result <==> Lookup(strategy.policy, Replay(strategy.policy, log), key, now).Some?
    {
      result := false;
      if key in data {
        result := strategy.OnIsValid(key, now);
      }
    }

    method DoGet(key: K, now: Time) returns (result: Option<V>)
      requires Valid() && clock <= now
      modifies this, strategy
      ensures Valid() && log == old(log) + [Get(key, now)]
      ensures result == Lookup(strategy.policy, Replay(strategy.policy, old(log)), key, now)
      ensures data == if result.None? then old(data) - {key} else old(data)
    {
      result := None;
      if key in data {
        GetKeeps(strategy.policy, data, strategy.times, history, key, clock, now);
        strategy.OnGet(key, now);
        var valid := strategy.OnIsValid(key, now);
        if !valid {
          DoRemove(key);
        } else {
          result := Some(data[key]);
        }
      }
      Record(Get(key, now));
    }

    method DoClear(now: Time)
      requires Valid() && clock <= now
      modifies this, strategy
      ensures Valid() && log == old(log) + [Clear(now)] && data == map[]
    {
      strategy.OnClear();
      data := map[];
      Record(Clear(now));
    }

    /** The number of entries that a get would find. */
    method Size(now: Time) returns (n: nat)
      requires Valid() && clock <= now
      modifies this, strategy
      ensures Valid() && log == old(log)
      ensures var h := Replay(strategy.policy, log); n == |set k | k in h && now < h[k].at + strategy.policy.expire|
    {
      DoReplace(now);
      n := |data.Keys|;
    }
  }
}
