/** The std::multimap from times to keys of Include/Poco/ExpireStrategy.h: entries in order of time, each
    with the handle that an iterator to it is. */
module TimeIndex {
  datatype Entry<K> = Entry(handle: nat, time: int, key: K)

  ghost predicate Sorted<K>(s: seq<Entry<K>>) {
    forall i, j :: 0 <= i < j < |s| ==> s[i].time <= s[j].time
  }

  ghost predicate Distinct<K>(s: seq<Entry<K>>) {
    forall i, j :: 0 <= i < j < |s| ==> s[i].handle != s[j].handle
  }

  /** Behind every entry of the same time. */
  function Insert<K>(s: seq<Entry<K>>, e: Entry<K>): seq<Entry<K>> {
    if s == [] || e.time < s[0].time then [e] + s else [s[0]] + Insert(s[1..], e)
  }

  function Erase<K>(s: seq<Entry<K>>, handle: nat): seq<Entry<K>> {
    if s == [] then [] else if s[0].handle == handle then s[1..] else [s[0]] + Erase(s[1..], handle)
  }

  /** An entry that is no later than the others, and not among them, may go first. */
  lemma Front<K(!new)>(e: Entry<K>, s: seq<Entry<K>>)
    requires Sorted(s) && Distinct(s) && forall x :: x in s ==> x.handle != e.handle && e.time <= x.time
    ensures Sorted([e] + s) && Distinct([e] + s)
    ensures forall x :: x in [e] + s <==> x in s || x == e
  {
    assert forall i :: 0 <= i < |s| ==> s[i] in s;
  }

  lemma Tail<K(!new)>(s: seq<Entry<K>>)
    requires s != [] && Sorted(s) && Distinct(s)
    ensures Sorted(s[1..]) && Distinct(s[1..])
    ensures forall x :: x in s <==> x == s[0] || x in s[1..]
    ensures forall x :: x in s[1..] ==> s[0].time <= x.time && s[0].handle != x.handle
  {
    assert s == [s[0]] + s[1..];
  }

  lemma {:induction false} InsertKeeps<K(!new)>(s: seq<Entry<K>>, e: Entry<K>)
    requires Sorted(s) && Distinct(s) && forall x :: x in s ==> x.handle != e.handle
    ensures Sorted(Insert(s, e)) && Distinct(Insert(s, e))
    ensures forall x :: x in Insert(s, e) <==> x in s || x == e
  {
    if s != [] { Tail(s); }
    if s != [] && e.time >= s[0].time {
      assert s[0] in s;
      InsertKeeps(s[1..], e);
      Front(s[0], Insert(s[1..], e));
    } else {
      Front(e, s);
    }
  }

  /** The entry goes behind those of its own time or an earlier one, and in front of the others. */
  lemma {:induction false} InsertAt<K(!new)>(s: seq<Entry<K>>, e: Entry<K>) returns (i: nat)
    requires Sorted(s)
    ensures i <= |s| && Insert(s, e) == s[..i] + [e] + s[i..]
    ensures forall j :: 0 <= j < |s| ==> (j < i <==> s[j].time <= e.time)
  {
    i := 0;
    if s != [] && e.time >= s[0].time {
      assert forall j :: 0 <= j < |s[1..]| ==> s[1..][j] == s[j + 1];
      i := InsertAt(s[1..], e);
      i := i + 1;
      assert s[..i] + [e] + s[i..] == [s[0]] + (s[1..][..i - 1] + [e] + s[1..][i - 1..]);
      forall j | 0 <= j < |s| ensures j < i <==> s[j].time <= e.time {
        if j > 0 { assert s[j] == s[1..][j - 1]; }
      }
    }
  }

  lemma {:induction false} EraseKeeps<K(!new)>(s: seq<Entry<K>>, handle: nat)
    requires Sorted(s) && Distinct(s)
    ensures Sorted(Erase(s, handle)) && Distinct(Erase(s, handle))
    ensures forall x :: x in Erase(s, handle) <==> x in s && x.handle != handle
  {
    if s != [] {
      Tail(s);
      if s[0].handle != handle {
        EraseKeeps(s[1..], handle);
        Front(s[0], Erase(s[1..], handle));
      }
    }
  }

  // ----- two indexes that point at each other -----

  /** keys takes a key to the handle of its entry, index holds that entry and no other of the key, and
      times is the time both give a key. */
  ghost predicate Agree<K(!new)>(keys: map<K, nat>, index: seq<Entry<K>>, times: map<K, int>, next: nat) {
    && Sorted(index) && Distinct(index)
    && times.Keys == keys.Keys
    && (forall k :: k in keys ==> Entry(keys[k], times[k], k) in index)
    && (forall e :: e in index ==> e.key in keys && e == Entry(keys[e.key], times[e.key], e.key) && e.handle < next)
  }

  lemma EraseAgrees<K(!new)>(keys: map<K, nat>, index: seq<Entry<K>>, times: map<K, int>, next: nat, key: K)
    requires Agree(keys, index, times, next) && key in keys
    ensures Agree(keys - {key}, Erase(index, keys[key]), times - {key}, next)
  {
    EraseKeeps(index, keys[key]);
    var rest := Erase(index, keys[key]);
    assert Entry(keys[key], times[key], key) in index;
    forall k | k in keys - {key} ensures Entry(keys[k], times[k], k) in rest {
      SameHandle(index, Entry(keys[k], times[k], k), Entry(keys[key], times[key], key));
    }
  }

  lemma SameHandle<K(!new)>(index: seq<Entry<K>>, x: Entry<K>, y: Entry<K>)
    requires Distinct(index) && x in index && y in index
    ensures x.handle == y.handle ==> x == y
  {
  }

  lemma InsertAgrees<K(!new)>(keys: map<K, nat>, index: seq<Entry<K>>, times: map<K, int>, next: nat, key: K, now: int)
    requires Agree(keys, index, times, next) && key !in keys
    ensures Agree(keys[key := next], Insert(index, Entry(next, now, key)), times[key := now], next + 1)
  {
    InsertKeeps(index, Entry(next, now, key));
  }

  /** Inserting the new entry of a key before the old one is erased, as onAdd does, comes to the same. */
  lemma {:induction false} InsertErase<K(!new)>(index: seq<Entry<K>>, e: Entry<K>, handle: nat)
    requires e.handle != handle && Sorted(index)
    ensures Erase(Insert(index, e), handle) == Insert(Erase(index, handle), e)
  {
    if index != [] {
      assert forall i :: 0 <= i < |index[1..]| ==> index[1..][i] == index[i + 1];
      if index[0].handle != handle && e.time >= index[0].time { InsertErase(index[1..], e, handle); }
    }
  }

  /** A key's entry is replaced by a later one. */
  lemma ReplaceAgrees<K(!new)>(keys: map<K, nat>, index: seq<Entry<K>>, times: map<K, int>, next: nat, key: K, now: int)
    requires Agree(keys, index, times, next) && key in keys
    ensures var e := Entry(next, now, key);
            && Agree(keys[key := next], Insert(Erase(index, keys[key]), e), times[key := now], next + 1)
            && Insert(Erase(index, keys[key]), e) == Erase(Insert(index, e), keys[key])
  {
    EraseAgrees(keys, index, times, next, key);
    InsertAgrees(keys - {key}, Erase(index, keys[key]), times - {key}, next, key, now);
    assert (keys - {key})[key := next] == keys[key := next];
    assert (times - {key})[key := now] == times[key := now];
    assert Entry(keys[key], times[key], key) in index;
    InsertErase(index, Entry(next, now, key), keys[key]);
  }
}
