/** What goes wrong when a SendBuffer is closed a second time while its chunk is open for another buffer
    (ServerCore/SendBuffer.cpp:14-19 does not ask), and exactly when. */
module SecondClose {
  import opened Wrappers
  import opened SendBuffer

  /** Buffer a is closed and buffer d is open on the chunk of thread t; n is a size a can be closed with. */
  ghost predicate Situation(w: World, t: Tid, a: BufId, n: nat, d: BufId) {
    && Inv(w) && !w.crashed && t in w.local
    && a in w.buffers && w.buffers[a].written.Some? && w.buffers[a].chunk == w.local[t] && n <= w.buffers[a].alloc
    && d in w.buffers && w.buffers[d].written == None && w.buffers[d].chunk == w.local[t]
  }

  /** Every such situation is reached from the start, by allowed moves, for all sizes that fit. */
  lemma Reached(t: Tid, alloc: nat, used: nat, room: nat, n: nat) returns (w: World)
    requires used <= alloc <= CHUNK_SIZE && used + room <= CHUNK_SIZE && n <= alloc
    ensures Run(Init(), [Open(t, alloc), Close(0, used), Open(t, room)], w) && Situation(w, t, 0, n, 1)
    ensures w.buffers == map[0 := Buffer(0, 0, alloc, Some(used)), 1 := Buffer(0, used, room, None)] && w.nextBuf == 2
    ensures |w.chunks| == 1 && w.chunks[0] == FreshChunk().(open := true, used := used) && w.local == map[t := 0]
  {
    var c := FreshChunk();
    var local: map<Tid, ChunkId> := map[t := 0];
    var w1 := World([c.(open := true)], [], local, map[0 := Buffer(0, 0, alloc, None)], 1, false);
    var w2 := World([c.(used := used)], [], local, map[0 := Buffer(0, 0, alloc, Some(used))], 1, false);
    w := World([c.(open := true, used := used)], [], local,
               map[0 := Buffer(0, 0, alloc, Some(used)), 1 := Buffer(0, used, room, None)], 2, false);
    FirstOpen(t, alloc);
    OwnClose(w1, alloc, used, w2);
    NextOpen(w2, t, room, w);
    var moves := [Open(t, alloc), Close(0, used), Open(t, room)];
    assert Run(w, [], w);
    assert Run(w2, [Open(t, room)], w);
    assert moves[1..][1..] == [Open(t, room)];
    assert Run(w1, moves[1..], w);
    assert Run(Init(), moves, w);
    InitInv();
    RunInv(Init(), moves, w);
  }

  lemma InitInv()
    ensures Inv(Init())
  {
  }

  lemma OwnClose(w: World, alloc: nat, used: nat, w': World)
    requires InRange(w) && !w.crashed && |w.chunks| == 1 && w.chunks[0].open && w.chunks[0].used == 0
    requires w.buffers == map[0 := Buffer(0, 0, alloc, None)] && used <= alloc <= CHUNK_SIZE
    requires w' == w.(buffers := map[0 := Buffer(0, 0, alloc, Some(used))],
                      chunks := [w.chunks[0].(open := false, used := used)])
    ensures InRange(w') && Allowed(w, Close(0, used)) && Step(w, Close(0, used)) == w'
  {
    assert w.chunks[0 := w.chunks[0].(open := false, used := used)] == w'.chunks;
  }

  lemma NextOpen(w: World, t: Tid, room: nat, w': World)
    requires InRange(w) && !w.crashed && |w.chunks| == 1 && !w.chunks[0].open && w.local == map[t := 0]
    requires w.chunks[0].used + room <= CHUNK_SIZE
    requires w' == w.(buffers := w.buffers[w.nextBuf := Buffer(0, w.chunks[0].used, room, None)],
                      nextBuf := w.nextBuf + 1, chunks := [w.chunks[0].(open := true)])
    ensures InRange(w') && Step(w, Open(t, room)) == w'
  {
    assert w.chunks[0 := w.chunks[0].(open := true)] == w'.chunks;
  }

  // ----- the chunk is taken away from the open buffer -----

  /** Closing b leaves another open buffer d closable exactly when b was not a closed buffer of d's chunk. */
  lemma SecondCloseSpoils(w: World, b: BufId, size: nat, d: BufId, n: nat)
    requires Inv(w) && !w.crashed
    requires b in w.buffers && d in w.buffers && b != d && w.buffers[d].written == None
    requires size <= w.buffers[b].alloc && n <= w.buffers[d].alloc && !CloseSpec(w, b, size).crashed
    ensures InRange(CloseSpec(w, b, size))
    ensures CloseSpec(CloseSpec(w, b, size), d, n).crashed
            <==> w.buffers[b].written.Some? && w.buffers[b].chunk == w.buffers[d].chunk
  {
    assert Placed(w.buffers[b], w.chunks[w.buffers[b].chunk]);
    assert Placed(w.buffers[d], w.chunks[w.buffers[d].chunk]);
    assert SameOpen(w.buffers[b], w.buffers[d]) ==> b == d;
  }

  // ----- the used mark -----

  ghost predicate MarksContained(w: World) {
    forall c :: 0 <= c < |w.chunks| ==> w.chunks[c].used <= CHUNK_SIZE
  }

  /** After a Close that does not crash every chunk's used mark is within the chunk, exactly when the
      buffer was not closed before, or the mark leaves room for the size given. */
  lemma CloseContainedIff(w: World, b: BufId, size: nat)
    requires Inv(w) && !w.crashed && b in w.buffers && !CloseSpec(w, b, size).crashed
    ensures MarksContained(CloseSpec(w, b, size))
            <==> w.buffers[b].written == None || w.chunks[w.buffers[b].chunk].used + size <= CHUNK_SIZE
  {
    var c := w.buffers[b].chunk;
    assert Placed(w.buffers[b], w.chunks[c]);
    assert CloseSpec(w, b, size).chunks[c].used == w.chunks[c].used + size;
  }

  /** The world after the second Close of a, and after the thread's next Open. */
  ghost function Reclosed(w: World, t: Tid, a: BufId, n: nat, d: BufId): (w1: World)
    requires Situation(w, t, a, n, d)
    ensures InRange(w1) && !w1.crashed && w1 == CloseSpec(w, a, n)
    ensures w1.local == w.local && w1.nextBuf == w.nextBuf && w1.pool == w.pool
    ensures w1.buffers == w.buffers[a := w.buffers[a].(written := Some(n))]
    ensures var c := w.chunks[w.local[t]];
            w1.chunks == w.chunks[w.local[t] := c.(open := false, used := w.buffers[d].start + n)]
  {
    assert Placed(w.buffers[d], w.chunks[w.local[t]]);
    assert Placed(w.buffers[a], w.chunks[w.local[t]]);
    CloseSpec(w, a, n)
  }

  /** The next Open of the thread always succeeds, and gives a buffer inside its chunk exactly when the
      used mark stayed inside. Otherwise FreeSize has wrapped, the buffer starts behind the array, and its
      first write is outside. */
  lemma NextBufferContainedIff(w: World, t: Tid, a: BufId, n: nat, d: BufId, size: nat, value: Byte)
    requires Situation(w, t, a, n, d) && 0 < size <= CHUNK_SIZE
    ensures var w1 := Reclosed(w, t, a, n, d);
            var w2 := Step(w1, Open(t, size));
            && InRange(w2) && !w2.crashed && w.nextBuf in w2.buffers
            && w2.buffers[w.nextBuf].alloc == size && w2.buffers[w.nextBuf].written == None
            && (w2.buffers[w.nextBuf].start + size <= CHUNK_SIZE <==> w.buffers[d].start + n <= CHUNK_SIZE)
            && (Step(w2, Write(w.nextBuf, 0, value)).crashed <==> w.buffers[d].start + n > CHUNK_SIZE)
  {
    var w1 := Reclosed(w, t, a, n, d);
    var c := w1.chunks[w.local[t]];
    if FreeSize(c) < size {
      NextBufferAtStart(w1, t, size);
    } else {
      NextBufferHere(w, t, a, n, d, size);
    }
  }

  /** Where the new buffer is when Open has to take another chunk. */
  lemma NextBufferAtStart(w: World, t: Tid, size: nat)
    requires InRange(w) && !w.crashed && t in w.local && !w.chunks[w.local[t]].open
    requires FreeSize(w.chunks[w.local[t]]) < size <= CHUNK_SIZE
    ensures var w2 := Step(w, Open(t, size));
            && InRange(w2) && !w2.crashed && w.nextBuf in w2.buffers && t in w2.local
            && w2.buffers[w.nextBuf] == Buffer(w2.local[t], 0, size, None)
  {
    TakeInRange(w, t);
  }

  // ----- bytes of a closed buffer overwritten -----

  /** The bytes buffer b was closed with, if they are inside its chunk. */
  ghost function Bytes(w: World, b: BufId): seq<Byte> {
    if b in w.buffers && w.buffers[b].chunk < |w.chunks| && w.buffers[b].written.Some?
       && w.buffers[b].start + w.buffers[b].written.value <= |w.chunks[w.buffers[b].chunk].bytes|
    then w.chunks[w.buffers[b].chunk].bytes[w.buffers[b].start..w.buffers[b].start + w.buffers[b].written.value]
    else []
  }

  /** In w, d can be closed with k, and then a write that the holder of e may make changes d's bytes. */
  ghost predicate Overwrites(w: World, e: BufId, d: BufId, k: nat, offset: nat, value: Byte) {
    && InRange(w) && !w.crashed && d in w.buffers
    && var w' := Step(w, Close(d, k));
    && InRange(w') && !w'.crashed && e in w'.buffers && e != d && w'.buffers[e].written == None
    && var w'' := Step(w', Write(e, offset, value));
    && !w''.crashed && Bytes(w'', d) != Bytes(w', d)
  }

  /** After the second Close and the thread's next Open, the new buffer can overwrite bytes of d, once d is
      closed, exactly when a was closed with less than d asked for and the new buffer still fits behind. */
  lemma SecondCloseOverwritesIff(w: World, t: Tid, a: BufId, n: nat, d: BufId, size: nat)
    requires Situation(w, t, a, n, d)
    ensures (exists k, offset, value ::
               Overwrites(Step(Reclosed(w, t, a, n, d), Open(t, size)), w.nextBuf, d, k, offset, value))
            <==> n < w.buffers[d].alloc && 0 < size && w.buffers[d].start + n + size <= CHUNK_SIZE
  {
    var w1 := Reclosed(w, t, a, n, d);
    var w2 := Step(w1, Open(t, size));
    if n < w.buffers[d].alloc && 0 < size && w.buffers[d].start + n + size <= CHUNK_SIZE {
      NextBufferOverwrites(w, t, a, n, d, size);
    } else {
      forall k, offset, value ensures !Overwrites(w2, w.nextBuf, d, k, offset, value) {
        NextBufferHarmless(w, t, a, n, d, size, k, offset, value);
      }
    }
  }

  /** Where the new buffer is when it fits behind the used mark, or the free size has wrapped. */
  lemma NextBufferHere(w: World, t: Tid, a: BufId, n: nat, d: BufId, size: nat)
    requires Situation(w, t, a, n, d) && size <= CHUNK_SIZE
    requires size <= FreeSize(Reclosed(w, t, a, n, d).chunks[w.local[t]])
    ensures var w1 := Reclosed(w, t, a, n, d);
            var c := w.local[t];
            var w2 := Step(w1, Open(t, size));
            && InRange(w2) && !w2.crashed && w2.chunks == w1.chunks[c := w1.chunks[c].(open := true)]
            && w2.buffers == w1.buffers[w.nextBuf := Buffer(c, w.buffers[d].start + n, size, None)]
            && w.nextBuf != d && w2.buffers[d] == w.buffers[d]
  {
  }

  lemma NextBufferOverwrites(w: World, t: Tid, a: BufId, n: nat, d: BufId, size: nat)
    requires Situation(w, t, a, n, d)
    requires n < w.buffers[d].alloc && 0 < size && w.buffers[d].start + n + size <= CHUNK_SIZE
    ensures exists k, offset, value ::
              Overwrites(Step(Reclosed(w, t, a, n, d), Open(t, size)), w.nextBuf, d, k, offset, value)
  {
    var c := w.local[t];
    assert Placed(w.buffers[d], w.chunks[c]);
    NextBufferHere(w, t, a, n, d, size);
    var w2 := Step(Reclosed(w, t, a, n, d), Open(t, size));
    var k := w.buffers[d].alloc;
    var value := w.chunks[c].bytes[w.buffers[d].start + n] + 1;
    ChangesByte(w2, w.nextBuf, d, k, n, value);
  }

  /** A buffer e that starts n bytes into the open buffer d, on its chunk, writes byte n of d. */
  lemma ChangesByte(w: World, e: BufId, d: BufId, k: nat, n: nat, value: Byte)
    requires InRange(w) && !w.crashed && e in w.buffers && d in w.buffers && e != d
    requires w.buffers[e].written == w.buffers[d].written == None && w.buffers[e].chunk == w.buffers[d].chunk
    requires w.buffers[e].start == w.buffers[d].start + n && w.buffers[e].alloc > 0
    requires n < k <= w.buffers[d].alloc && w.buffers[d].start + k <= CHUNK_SIZE
    requires w.chunks[w.buffers[d].chunk].open
    requires value == w.chunks[w.buffers[d].chunk].bytes[w.buffers[e].start] + 1
    ensures Overwrites(w, e, d, k, 0, value)
  {
    var w' := Step(w, Close(d, k));
    var w'' := Step(w', Write(e, 0, value));
    var c, start := w.buffers[d].chunk, w.buffers[d].start;
    var bytes := w.chunks[c].bytes;
    assert w'.chunks[c].bytes == bytes;
    assert w'.buffers[d] == w.buffers[d].(written := Some(k)) && w'.buffers[e] == w.buffers[e];
    assert w''.chunks[c].bytes == bytes[start + n := value] && w''.buffers == w'.buffers;
    SliceChanged(bytes, start, k, n, value);
  }

  lemma SliceChanged(bytes: seq<Byte>, start: nat, k: nat, n: nat, value: Byte)
    requires n < k && start + k <= |bytes| && value != bytes[start + n]
    ensures bytes[start + n := value][start..start + k] != bytes[start..start + k]
  {
    assert bytes[start + n := value][start..start + k][n] == value;
    assert bytes[start..start + k][n] == bytes[start + n];
  }

  /** Where the new buffer is when Open has to take another chunk: not on d's, which stays closed. */
  lemma NextBufferElsewhere(w: World, t: Tid, a: BufId, n: nat, d: BufId, size: nat)
    requires Situation(w, t, a, n, d) && size <= CHUNK_SIZE
    requires FreeSize(Reclosed(w, t, a, n, d).chunks[w.local[t]]) < size
    ensures var w2 := Step(Reclosed(w, t, a, n, d), Open(t, size));
            InRange(w2) && d in w2.buffers && w2.buffers[d] == w.buffers[d] && !w2.chunks[w.buffers[d].chunk].open
  {
    var w1 := Reclosed(w, t, a, n, d);
    var c := w.local[t];
    TakeInRange(w1, t);
    assert Referenced(w, c) && c !in w.pool;
    assert c < |w1.chunks| && PopReset(w1, t).chunks[c] == w1.chunks[c] by {
      if w1.pool != [] { assert w1.pool[|w1.pool| - 1] in w.pool; }
    }
  }

  lemma NextBufferHarmless(w: World, t: Tid, a: BufId, n: nat, d: BufId, size: nat, k: nat, offset: nat, value: Byte)
    requires Situation(w, t, a, n, d)
    requires !(n < w.buffers[d].alloc && 0 < size && w.buffers[d].start + n + size <= CHUNK_SIZE)
    ensures !Overwrites(Step(Reclosed(w, t, a, n, d), Open(t, size)), w.nextBuf, d, k, offset, value)
  {
    var w1 := Reclosed(w, t, a, n, d);
    var c := w.local[t];
    assert Placed(w.buffers[d], w.chunks[c]);
    if size <= CHUNK_SIZE {
      if FreeSize(w1.chunks[c]) < size {
        NextBufferElsewhere(w, t, a, n, d, size);
      } else {
        SameChunkHarmless(w, t, a, n, d, size, k, offset, value);
      }
    }
  }

  lemma SameChunkHarmless(w: World, t: Tid, a: BufId, n: nat, d: BufId, size: nat, k: nat, offset: nat, value: Byte)
    requires Situation(w, t, a, n, d) && size <= CHUNK_SIZE
    requires size <= FreeSize(Reclosed(w, t, a, n, d).chunks[w.local[t]])
    requires !(n < w.buffers[d].alloc && 0 < size && w.buffers[d].start + n + size <= CHUNK_SIZE)
    ensures !Overwrites(Step(Reclosed(w, t, a, n, d), Open(t, size)), w.nextBuf, d, k, offset, value)
  {
    assert Placed(w.buffers[d], w.chunks[w.local[t]]);
    NextBufferHere(w, t, a, n, d, size);
    var w2 := Step(Reclosed(w, t, a, n, d), Open(t, size));
    KeepsBytesOf(w2, w.nextBuf, d, k, offset, value);
  }

  /** A buffer e that starts behind the end of d, or behind the array, or is empty, changes no byte of d. */
  lemma KeepsBytesOf(w: World, e: BufId, d: BufId, k: nat, offset: nat, value: Byte)
    requires InRange(w) && !w.crashed && e in w.buffers && d in w.buffers && e != d
    requires w.buffers[e].alloc == 0 || w.buffers[d].start + w.buffers[d].alloc <= w.buffers[e].start
             || CHUNK_SIZE <= w.buffers[e].start
    ensures !Overwrites(w, e, d, k, offset, value)
  {
    if InRange(Step(w, Close(d, k))) && !Step(w, Close(d, k)).crashed {
      var w' := Step(w, Close(d, k));
      assert w'.buffers[e] == w.buffers[e] && w'.buffers[d] == w.buffers[d].(written := Some(k));
      var w'' := Step(w', Write(e, offset, value));
      assert !w''.crashed ==> Bytes(w'', d) == Bytes(w', d);
    }
  }

  // ----- the buffer that was closed again -----

  /** The holder of the open buffer d writes, as it may, and that changes the bytes of a. */
  ghost predicate WriteChanges(w: World, d: BufId, offset: nat, value: Byte, a: BufId)
    requires InRange(w)
  {
    && Allowed(w, Write(d, offset, value)) && !Step(w, Write(d, offset, value)).crashed
    && Bytes(Step(w, Write(d, offset, value)), a) != Bytes(w, a)
  }

  /** Right after the second Close of a, a write to d can change bytes of a, exactly when a now reaches into d
      and d is not empty. */
  lemma ReclosedOverwrittenIff(w: World, t: Tid, a: BufId, n: nat, d: BufId)
    requires Situation(w, t, a, n, d)
    ensures (exists offset: nat, value: Byte :: WriteChanges(Reclosed(w, t, a, n, d), d, offset, value, a))
            <==> w.buffers[a].start + n > w.buffers[d].start && w.buffers[d].alloc > 0
  {
    var w1 := Reclosed(w, t, a, n, d);
    var bytes := w1.chunks[w.local[t]].bytes;
    var from, start := w.buffers[a].start, w.buffers[d].start;
    assert Placed(w.buffers[a], w.chunks[w.local[t]]) && Placed(w.buffers[d], w.chunks[w.local[t]]);
    if from + n > start && w.buffers[d].alloc > 0 {
      var value := bytes[start] + 1;
      SliceChanged(bytes, from, n, start - from, value);
      WriteToOpen(w, t, a, n, d, 0, value);
      assert WriteChanges(w1, d, 0, value, a);
    } else {
      forall offset: nat, value: Byte ensures !WriteChanges(w1, d, offset, value, a) {
        WriteToOpen(w, t, a, n, d, offset, value);
        if offset < w.buffers[d].alloc { SliceSame(bytes, from, n, start + offset, value); }
      }
    }
  }

  lemma SliceSame(bytes: seq<Byte>, start: nat, k: nat, at: nat, value: Byte)
    requires start + k <= at < |bytes|
    ensures bytes[at := value][start..start + k] == bytes[start..start + k]
  {
  }

  lemma WriteToOpen(w: World, t: Tid, a: BufId, n: nat, d: BufId, offset: nat, value: Byte)
    requires Situation(w, t, a, n, d)
    ensures w.buffers[d].start + w.buffers[d].alloc <= CHUNK_SIZE && w.buffers[a].start + n <= CHUNK_SIZE
    ensures |Reclosed(w, t, a, n, d).chunks[w.local[t]].bytes| == CHUNK_SIZE
    ensures var w1 := Reclosed(w, t, a, n, d);
            var bytes := w1.chunks[w.local[t]].bytes;
            var from, start := w.buffers[a].start, w.buffers[d].start;
            WriteChanges(w1, d, offset, value, a)
            <==> offset < w.buffers[d].alloc
                 && bytes[start + offset := value][from..from + n] != bytes[from..from + n]
  {
    var w1 := Reclosed(w, t, a, n, d);
    assert Placed(w.buffers[a], w.chunks[w.local[t]]) && Placed(w.buffers[d], w.chunks[w.local[t]]);
    assert w1.buffers[d] == w.buffers[d];
  }

  ghost predicate AllApart(w: World) {
    forall x, y :: x in w.buffers && y in w.buffers && x != y ==> Apart(w.buffers[x], w.buffers[y])
  }

  /** The written ranges of closed live buffers are still disjoint exactly when a does not reach into one that
      lies behind it. */
  lemma ReclosedApartIff(w: World, t: Tid, a: BufId, n: nat, d: BufId)
    requires Situation(w, t, a, n, d)
    ensures AllApart(Reclosed(w, t, a, n, d))
            <==> forall b :: b in w.buffers && b != a && Behind(w.buffers[a], w.buffers[b]) ==>
                   w.buffers[a].start + n <= w.buffers[b].start
  {
    var w1 := Reclosed(w, t, a, n, d);
    var x := w1.buffers[a];
    if AllApart(w1) {
      forall b | b in w.buffers && b != a && Behind(w.buffers[a], w.buffers[b])
        ensures w.buffers[a].start + n <= w.buffers[b].start
      {
        assert w1.buffers[b] == w.buffers[b] && Apart(x, w1.buffers[b]);
      }
    }
    if forall b :: b in w.buffers && b != a && Behind(w.buffers[a], w.buffers[b]) ==>
         w.buffers[a].start + n <= w.buffers[b].start {
      forall b | b in w.buffers && b != a ensures Apart(x, w1.buffers[b]) && Apart(w1.buffers[b], x) {
        assert w1.buffers[b] == w.buffers[b] && Apart(w.buffers[a], w.buffers[b]);
      }
      forall b, e | b in w.buffers && e in w.buffers && b != e ensures Apart(w1.buffers[b], w1.buffers[e]) {
        assert Apart(w.buffers[b], w.buffers[e]);
      }
    }
  }

  /** A closed buffer y of the same chunk that does not end before x starts. */
  predicate Behind(x: Buffer, y: Buffer) {
    y.chunk == x.chunk && y.written.Some? && y.start + y.written.value > x.start
  }

  // ----- three runs -----

  /** From the start, after Open 20, Close 10, Open 5, closing the first buffer again with 20 lets the second,
      which is open, write into it. */
  lemma ReclosedRun(t: Tid) returns (w: World)
    ensures Run(Init(), [Open(t, 20), Close(0, 10), Open(t, 5)], w) && Situation(w, t, 0, 20, 1)
    ensures exists offset: nat, value: Byte :: WriteChanges(Reclosed(w, t, 0, 20, 1), 1, offset, value, 0)
  {
    w := Reached(t, 20, 10, 5, 20);
    ReclosedOverwrittenIff(w, t, 0, 20, 1);
  }

  /** From the start, the second Close being the only move that is not allowed: after Open 8000, Close
      5000, Open 7000, closing the first buffer again with 8000 puts the used mark at 13000, and the first
      write to the thread's next buffer is outside the array. */
  lemma OutsideRun(t: Tid) returns (w: World)
    ensures Run(Init(), [Open(t, 8000), Close(0, 5000), Open(t, 7000)], w) && Situation(w, t, 0, 8000, 1)
    ensures var w1 := Reclosed(w, t, 0, 8000, 1);
            var w2 := Step(w1, Open(t, 1));
            && !MarksContained(w1) && InRange(w2) && !w2.crashed && Step(w2, Write(2, 0, 1)).crashed
  {
    w := Reached(t, 8000, 5000, 7000, 8000);
    CloseContainedIff(w, 0, 8000);
    NextBufferContainedIff(w, t, 0, 8000, 1, 1, 1);
  }

  /** Likewise after Open 20, Close 10, Open 20, closing the first buffer again with 10 lets the thread's
      next buffer overwrite the second one, once that is closed. */
  lemma OverwriteRun(t: Tid) returns (w: World)
    ensures Run(Init(), [Open(t, 20), Close(0, 10), Open(t, 20)], w) && Situation(w, t, 0, 10, 1)
    ensures exists k, offset, value :: Overwrites(Step(Reclosed(w, t, 0, 10, 1), Open(t, 20)), 2, 1, k, offset, value)
  {
    w := Reached(t, 20, 10, 20, 10);
    SecondCloseOverwritesIff(w, t, 0, 10, 1, 20);
  }
}
