/** SendBufferChunk::Close in its two stores, `_open = false` and `_usedSize += writeSize`, when the buffer is closed
    by another thread and the owner of the chunk opens its next buffer in between. */
module SplitClose {
  import opened Wrappers
  import opened SendBuffer
  import opened SecondClose
  import Aftermath

  /** Everything up to the store of _open. */
  ghost function BeginClose(w: World, b: BufId, n: nat): World
    requires InRange(w)
  {
    if b !in w.buffers then w
    else if n > w.buffers[b].alloc || !w.chunks[w.buffers[b].chunk].open then w.(crashed := true)
    else
      var c := w.buffers[b].chunk;
      SetWritten(w, b, n).(chunks := w.chunks[c := w.chunks[c].(open := false)])
  }

  /** The addition to _usedSize. */
  function EndClose(w: World, c: ChunkId, n: nat): World
    requires c < |w.chunks|
  {
    w.(chunks := w.chunks[c := w.chunks[c].(used := (w.chunks[c].used + n) % UINT32)])
  }

  /** b is open on the chunk of thread t, and n is a size it can be closed with. */
  ghost predicate OpenOnOwn(w: World, t: Tid, b: BufId, n: nat) {
    && Inv(w) && !w.crashed && t in w.local
    && b in w.buffers && w.buffers[b].written == None && w.buffers[b].chunk == w.local[t] && n <= w.buffers[b].alloc
  }

  /** With nothing in between, the two halves are Close. */
  lemma HalvesAreClose(w: World, t: Tid, b: BufId, n: nat)
    requires OpenOnOwn(w, t, b, n)
    ensures InRange(BeginClose(w, b, n)) && !BeginClose(w, b, n).crashed
    ensures EndClose(BeginClose(w, b, n), w.local[t], n) == CloseSpec(w, b, n)
  {
    assert Placed(w.buffers[b], w.chunks[w.local[t]]);
  }

  /** The owner's Open comes between the halves. */
  ghost function Between(w: World, t: Tid, b: BufId, n: nat, size: nat): (w2: World)
    requires OpenOnOwn(w, t, b, n) && size <= CHUNK_SIZE
    ensures InRange(w2) && w.local[t] < |w2.chunks|
  {
    HalvesAreClose(w, t, b, n);
    var w1 := BeginClose(w, b, n);
    OpensBetween(w, t, b, n, size);
    EndClose(Step(w1, Open(t, size)), w.local[t], n)
  }

  predicate Fits(w: World, t: Tid, size: nat)
    requires t in w.local && w.local[t] < |w.chunks|
  {
    size <= FreeSize(w.chunks[w.local[t]])
  }

  /** The new buffer starts where the one that is being closed does, if it fits there; and nothing else about
      that chunk changes. */
  ghost predicate Opened(w: World, t: Tid, b: BufId, n: nat, size: nat, w2: World)
    requires OpenOnOwn(w, t, b, n)
  {
    var c := w.local[t];
    && InRange(w2) && !w2.crashed && c < |w2.chunks|
    && w2.chunks[c].bytes == w.chunks[c].bytes && w2.chunks[c].used == w.chunks[c].used
    && t in w2.local && w2.local[t] < |w2.chunks| && w2.chunks[w2.local[t]].open
    && w.nextBuf !in w.buffers && w.nextBuf in w2.buffers
    && w2.buffers == w.buffers[b := w.buffers[b].(written := Some(n))][w.nextBuf := w2.buffers[w.nextBuf]]
    && (if Fits(w, t, size) then w2.buffers[w.nextBuf] == Buffer(c, w.buffers[b].start, size, None)
        else w2.buffers[w.nextBuf] == Buffer(w2.local[t], 0, size, None) && NewChunk(w, w2.local[t]))
  }

  lemma OpensBetween(w: World, t: Tid, b: BufId, n: nat, size: nat)
    requires OpenOnOwn(w, t, b, n) && size <= CHUNK_SIZE
    ensures InRange(BeginClose(w, b, n)) && !BeginClose(w, b, n).crashed
    ensures Opened(w, t, b, n, size, Step(BeginClose(w, b, n), Open(t, size)))
  {
    HalvesAreClose(w, t, b, n);
    if Fits(w, t, size) {
      OpensHere(w, t, b, n, size);
    } else {
      OpensElsewhere(w, t, b, n, size);
    }
  }

  lemma OpensHere(w: World, t: Tid, b: BufId, n: nat, size: nat)
    requires OpenOnOwn(w, t, b, n) && size <= CHUNK_SIZE && Fits(w, t, size) && InRange(BeginClose(w, b, n))
    ensures Opened(w, t, b, n, size, Step(BeginClose(w, b, n), Open(t, size)))
  {
    var w1 := BeginClose(w, b, n);
    assert Placed(w.buffers[b], w.chunks[w.local[t]]);
    BeginsClosing(w, t, b, n);
    Aftermath.OpensHere(w1, t, size);
  }

  lemma BeginsClosing(w: World, t: Tid, b: BufId, n: nat)
    requires OpenOnOwn(w, t, b, n) && InRange(BeginClose(w, b, n))
    ensures var w1 := BeginClose(w, b, n);
            var c := w.local[t];
            && w1 == w.(chunks := w.chunks[c := w.chunks[c].(open := false)],
                        buffers := w.buffers[b := w.buffers[b].(written := Some(n))])
  {
    assert Placed(w.buffers[b], w.chunks[w.local[t]]);
  }

  lemma OpensNew(w: World, t: Tid, size: nat)
    requires InRange(w) && !w.crashed && t in w.local && !w.chunks[w.local[t]].open
    requires FreeSize(w.chunks[w.local[t]]) < size <= CHUNK_SIZE
    ensures var v := TakeChunk(w, t);
            && InRange(v) && t in v.local && v.local[t] < |v.chunks|
            && Step(w, Open(t, size))
               == v.(chunks := v.chunks[v.local[t] := v.chunks[v.local[t]].(open := true)],
                     buffers := v.buffers[v.nextBuf := Buffer(v.local[t], 0, size, None)], nextBuf := v.nextBuf + 1)
  {
    TakeInRange(w, t);
  }

  /** No buffer is on this chunk. */
  ghost predicate NewChunk(w: World, c: ChunkId) {
    forall b :: b in w.buffers ==> w.buffers[b].chunk != c
  }

  lemma OpensElsewhere(w: World, t: Tid, b: BufId, n: nat, size: nat)
    requires OpenOnOwn(w, t, b, n) && size <= CHUNK_SIZE && !Fits(w, t, size) && InRange(BeginClose(w, b, n))
    ensures Opened(w, t, b, n, size, Step(BeginClose(w, b, n), Open(t, size)))
  {
    var w1 := BeginClose(w, b, n);
    BeginsClosing(w, t, b, n);
    TakesElsewhere(w, t, b, n);
    OpensNew(w1, t, size);
  }

  lemma TakesElsewhere(w: World, t: Tid, b: BufId, n: nat)
    requires OpenOnOwn(w, t, b, n) && InRange(BeginClose(w, b, n)) && !BeginClose(w, b, n).crashed
    ensures var w1 := BeginClose(w, b, n);
            var w2 := TakeChunk(w1, t);
            && InRange(w2) && w2.buffers == w1.buffers && w2.nextBuf == w1.nextBuf && !w2.crashed && t in w2.local
            && w.local[t] < |w1.chunks| <= |w2.chunks| && w2.chunks[w.local[t]] == w1.chunks[w.local[t]]
            && NewChunk(w, w2.local[t]) && w2.local[t] != w.local[t]
  {
    var w1 := BeginClose(w, b, n);
    SameReferences(w, w1, b);
    assert Refs(w1);
    TakeRefs(w1, t);
    TakenIsFree(w1, t);
    TakeInRange(w1, t);
    assert Referenced(w1, w.local[t]);
    forall d | d in w.buffers ensures w.buffers[d].chunk != TakeChunk(w1, t).local[t] {
      assert d in w1.buffers && w1.buffers[d].chunk == w.buffers[d].chunk;
    }
  }

  /** Once the new buffer is closed with k, the written ranges of closed live buffers are disjoint, exactly when
      one of the two is empty or the new one had to go to another chunk. */
  lemma SplitApartIff(w: World, t: Tid, b: BufId, n: nat, size: nat, k: nat)
    requires OpenOnOwn(w, t, b, n) && k <= size <= CHUNK_SIZE
    ensures var w3 := Step(Between(w, t, b, n, size), Close(w.nextBuf, k));
            && !w3.crashed
            && (AllApart(w3) <==> n == 0 || k == 0 || !Fits(w, t, size))
  {
    OpensBetween(w, t, b, n, size);
    var w2 := Between(w, t, b, n, size);
    var w3 := Step(w2, Close(w.nextBuf, k));
    var x, d := w.buffers[b].(written := Some(n)), w2.buffers[w.nextBuf].(written := Some(k));
    assert w3.buffers == w.buffers[b := x][w.nextBuf := d];
    assert Placed(w.buffers[b], w.chunks[w.local[t]]);
    if n == 0 || k == 0 || !Fits(w, t, size) {
      forall y, z | y in w3.buffers && z in w3.buffers && y != z ensures Apart(w3.buffers[y], w3.buffers[z]) {
        ApartAfter(w, t, b, n, d, y, z);
      }
    } else {
      assert !Apart(w3.buffers[b], w3.buffers[w.nextBuf]);
    }
  }

  lemma ApartAfter(w: World, t: Tid, b: BufId, n: nat, d: Buffer, y: BufId, z: BufId)
    requires OpenOnOwn(w, t, b, n) && w.nextBuf !in w.buffers && d.written.Some?
    requires (d.chunk == w.local[t] && d.start == w.buffers[b].start && (n == 0 || d.written.value == 0))
             || NewChunk(w, d.chunk)
    requires var bs := w.buffers[b := w.buffers[b].(written := Some(n))][w.nextBuf := d]; y in bs && z in bs && y != z
    ensures var bs := w.buffers[b := w.buffers[b].(written := Some(n))][w.nextBuf := d]; Apart(bs[y], bs[z])
  {
    assert Placed(w.buffers[b], w.chunks[w.local[t]]);
    if y in w.buffers { assert Placed(w.buffers[y], w.chunks[w.buffers[y].chunk]); }
    if z in w.buffers { assert Placed(w.buffers[z], w.chunks[w.buffers[z].chunk]); }
  }

  /** And already before that a write to the new buffer can change bytes of the closed one, exactly when neither
      is empty and they are on one chunk. */
  lemma SplitOverwrittenIff(w: World, t: Tid, b: BufId, n: nat, size: nat)
    requires OpenOnOwn(w, t, b, n) && size <= CHUNK_SIZE
    ensures (exists offset: nat, value: Byte :: WriteChanges(Between(w, t, b, n, size), w.nextBuf, offset, value, b))
            <==> n > 0 && size > 0 && Fits(w, t, size)
  {
    OpensBetween(w, t, b, n, size);
    var w2 := Between(w, t, b, n, size);
    var start := w.buffers[b].start;
    var bytes := w.chunks[w.local[t]].bytes;
    assert Placed(w.buffers[b], w.chunks[w.local[t]]);
    if n > 0 && size > 0 && Fits(w, t, size) {
      SliceChanged(bytes, start, n, 0, bytes[start] + 1);
      WritesOver(w2, w.nextBuf, b, bytes[start] + 1);
    } else {
      forall offset: nat, value: Byte ensures !WriteChanges(w2, w.nextBuf, offset, value, b) {
        WritesBeside(w2, w.nextBuf, b, offset, value);
      }
    }
  }

  lemma WritesOver(w: World, d: BufId, b: BufId, value: Byte)
    requires InRange(w) && !w.crashed && d in w.buffers && b in w.buffers && d != b
    requires var x, y := w.buffers[b], w.buffers[d];
             && y.written == None && y.alloc > 0 && x.chunk == y.chunk && x.start == y.start && x.written.Some?
             && 0 < x.written.value && x.start + x.written.value <= CHUNK_SIZE
             && value == w.chunks[x.chunk].bytes[x.start] + 1
    ensures WriteChanges(w, d, 0, value, b)
  {
    var x := w.buffers[b];
    SliceChanged(w.chunks[x.chunk].bytes, x.start, x.written.value, 0, value);
  }

  lemma WritesBeside(w: World, d: BufId, b: BufId, offset: nat, value: Byte)
    requires InRange(w) && !w.crashed && d in w.buffers && b in w.buffers && w.buffers[b].written.Some?
    requires w.buffers[d].alloc == 0 || w.buffers[b].written == Some(0) || w.buffers[d].chunk != w.buffers[b].chunk
    ensures !WriteChanges(w, d, offset, value, b)
  {
  }

  /** From the start: Open 20, and while another thread closes that buffer with 10, Open 5. */
  lemma SplitRun(t: Tid) returns (w: World)
    ensures Run(Init(), [Open(t, 20)], w) && OpenOnOwn(w, t, 0, 10) && Fits(w, t, 5) && w.nextBuf == 1
    ensures exists offset: nat, value: Byte :: WriteChanges(Between(w, t, 0, 10, 5), 1, offset, value, 0)
    ensures !AllApart(Step(Between(w, t, 0, 10, 5), Close(1, 5)))
  {
    FirstOpen(t, 20);
    w := Step(Init(), Open(t, 20));
    assert Inv(Init()) && InRange(w);
    StepInv(Init(), Open(t, 20));
    assert Run(w, [], w);
    SplitOverwrittenIff(w, t, 0, 10, 5);
    SplitApartIff(w, t, 0, 10, 5, 5);
  }
}
