/** What an expiring cache means: a map whose entries carry the time their window started, and how such a
    map comes out of a log of calls. Nothing here says when an expired entry is thrown away. */
module TimedMap {
  import opened Wrappers

  type Time = int

  datatype Stamped<V> = Stamped(value: V, at: Time)

  /** How long a window is, and whether a successful get starts it again (AccessExpireStrategy). */
  datatype Policy = Policy(expire: Time, onAccess: bool)

  predicate Elapsed(p: Policy, at: Time, now: Time) {
    now - at >= p.expire
  }

  function Lookup<K, V>(p: Policy, h: map<K, Stamped<V>>, k: K, now: Time): Option<V> {
    if k in h && !Elapsed(p, h[k].at, now) then Some(h[k].value) else None
  }

  datatype Call<K, V> =
    | Put(k: K, v: V, now: Time)
    | Remove(k: K, now: Time)
    | Get(k: K, now: Time)
    | Clear(now: Time)

  function After<K, V>(p: Policy, h: map<K, Stamped<V>>, c: Call<K, V>): map<K, Stamped<V>> {
    match c
    case Put(k, v, now) => h[k := Stamped(v, now)]
    case Remove(k, _) => h - {k}
    case Get(k, now) => if p.onAccess && Lookup(p, h, k, now).Some? then h[k := h[k].(at := now)] else h
    case Clear(_) => map[]
  }

  /** The map after a log of calls; the last call is at the end. */
  function Replay<K, V>(p: Policy, log: seq<Call<K, V>>): map<K, Stamped<V>> {
    if log == [] then map[] else After(p, Replay(p, log[..|log| - 1]), log[|log| - 1])
  }

  // ----- the same, told from the log -----

  /** Calls that end the life of k's current entry. */
  predicate Ends<K(==), V>(c: Call<K, V>, k: K) {
    (c.Put? && c.k == k) || (c.Remove? && c.k == k) || c.Clear?
  }

  /** Call i is the last write of k, with no remove and no clear after it. */
  ghost predicate LastWrite<K, V>(log: seq<Call<K, V>>, k: K, i: nat) {
    i < |log| && log[i].Put? && log[i].k == k && forall j: nat :: i < j < |log| ==> !Ends(log[j], k)
  }

  /** Call j is a get of k that returned a value. */
  ghost predicate Hit<K, V>(p: Policy, log: seq<Call<K, V>>, k: K, j: nat) {
    j < |log| && log[j].Get? && log[j].k == k && Lookup(p, Replay(p, log[..j]), k, log[j].now).Some?
  }

  /** The window of the entry written by call i started at call j: the write itself or, where access counts,
      the last get of it that succeeded. */
  ghost predicate WindowStart<K, V>(p: Policy, log: seq<Call<K, V>>, k: K, i: nat, j: nat) {
    && i <= j < |log|
    && (j == i || (p.onAccess && Hit(p, log, k, j)))
    && (p.onAccess ==> forall m: nat :: j < m < |log| ==> !Hit(p, log, k, m))
  }

  ghost predicate Since<K, V>(p: Policy, log: seq<Call<K, V>>, k: K, e: Stamped<V>, i: nat, j: nat) {
    LastWrite(log, k, i) && log[i].v == e.value && WindowStart(p, log, k, i, j) && log[j].now == e.at
  }

  lemma {:induction false} ReplayEntry<K, V>(p: Policy, log: seq<Call<K, V>>, k: K, e: Stamped<V>)
    ensures (k in Replay(p, log) && Replay(p, log)[k] == e) <==> exists i: nat, j: nat :: Since(p, log, k, e, i, j)
  {
    if log != [] {
      var n := |log| - 1;
      var before, c := log[..n], log[n];
      var h := Replay(p, before);
      if Ends(c, k) {
        assert forall i: nat, j: nat :: Since(p, log, k, e, i, j) ==> i == n && j == n;
        if c.Put? && e == Stamped(c.v, c.now) { assert Since(p, log, k, e, n, n); }
      } else {
        assert Hit(p, log, k, n) <==> c.Get? && c.k == k && Lookup(p, h, k, c.now).Some?;
        if p.onAccess && Hit(p, log, k, n) {
          var e0 := h[k];
          ReplayEntry(p, before, k, e0);
          var i: nat, j: nat :| Since(p, before, k, e0, i, j);
          LastWriteOnly(log, k, i);
          assert LastWrite(log, k, i);
          assert Since(p, log, k, Stamped(e0.value, c.now), i, n);
          assert forall m: nat, l: nat :: Since(p, log, k, e, m, l) ==> m == i && l == n;
        } else {
          ReplayEntry(p, before, k, e);
          assert k in Replay(p, log) <==> k in h;
          assert k in h ==> Replay(p, log)[k] == h[k];
          forall m: nat, l: nat ensures Since(p, log, k, e, m, l) <==> Since(p, before, k, e, m, l) {
            NoHitAtEnd(p, log, k, e, m, l);
          }
        }
      }
    }
  }

  lemma NoHitAtEnd<K, V>(p: Policy, log: seq<Call<K, V>>, k: K, e: Stamped<V>, i: nat, j: nat)
    requires log != [] && !Ends(log[|log| - 1], k) && !(p.onAccess && Hit(p, log, k, |log| - 1))
    ensures Since(p, log, k, e, i, j) <==> Since(p, log[..|log| - 1], k, e, i, j)
  {
    var before := log[..|log| - 1];
    if Since(p, log, k, e, i, j) {
      assert i < |before| && LastWrite(before, k, i);
      HitBefore(p, log, k, j);
      forall m: nat | j < m < |before| && p.onAccess ensures !Hit(p, before, k, m) { HitBefore(p, log, k, m); }
    }
    if Since(p, before, k, e, i, j) {
      LastWriteOnly(log, k, i);
      HitBefore(p, log, k, j);
      forall m: nat | j < m < |log| && p.onAccess ensures !Hit(p, log, k, m) {
        if m < |before| { HitBefore(p, log, k, m); }
      }
    }
  }

  lemma LastWriteOnly<K, V>(log: seq<Call<K, V>>, k: K, i: nat)
    requires log != [] && LastWrite(log[..|log| - 1], k, i) && !Ends(log[|log| - 1], k)
    ensures LastWrite(log, k, i) && forall m: nat :: LastWrite(log, k, m) ==> m == i
  {
  }

  lemma HitBefore<K, V>(p: Policy, log: seq<Call<K, V>>, k: K, m: nat)
    requires m < |log| - 1
    ensures Hit(p, log, k, m) <==> Hit(p, log[..|log| - 1], k, m)
  {
    assert log[..|log| - 1][..m] == log[..m];
  }

  /** A get returns v exactly when v is the last value written for the key, the key was not removed and the
      cache not cleared since, and less time than the window is long has passed since its start. */
  lemma GetIff<K, V>(p: Policy, log: seq<Call<K, V>>, k: K, v: V, now: Time)
    ensures Lookup(p, Replay(p, log), k, now) == Some(v)
            <==> exists i: nat, j: nat :: LastWrite(log, k, i) && log[i].v == v && WindowStart(p, log, k, i, j)
                                && now < log[j].now + p.expire
  {
    var h := Replay(p, log);
    if k in h { ReplayEntry(p, log, k, h[k]); }
    forall i: nat, j: nat | LastWrite(log, k, i) && log[i].v == v && WindowStart(p, log, k, i, j)
      ensures k in h && h[k] == Stamped(v, log[j].now)
    {
      assert Since(p, log, k, Stamped(v, log[j].now), i, j);
      ReplayEntry(p, log, k, Stamped(v, log[j].now));
    }
  }

  /** One write, and a get some time after it, with a window of that many milliseconds, in microseconds. */
  lemma OneEntry<K, V>(milliseconds: int, onAccess: bool, k: K, v: V, at: Time, now: Time)
    ensures var p := Policy(milliseconds * 1000, onAccess);
            Lookup(p, Replay(p, [Put(k, v, at)]), k, now) == if now - at < milliseconds * 1000 then Some(v) else None
  {
    var p := Policy(milliseconds * 1000, onAccess);
    assert [Put(k, v, at)][..0] == [];
    assert Replay(p, [Put(k, v, at)]) == After(p, map[], Put(k, v, at));
  }
}
