/** ServerCore/SendBuffer.cpp as functions on one value, the World: send buffers are cut from 12000-byte
    chunks, each thread has one current chunk, and a chunk returns to the pool with its last reference. */
module SendBuffer {
  import opened Wrappers

  type Tid = nat
  type ChunkId = nat
  type BufId = nat
  type Byte = nat

  const CHUNK_SIZE: nat := 12000
  const UINT32: nat := 0x1_0000_0000

  datatype Chunk = Chunk(bytes: seq<Byte>, open: bool, used: nat)

  /** start is _buffer as an offset; written is _writeSize once Close has been called. */
  datatype Buffer = Buffer(chunk: ChunkId, start: nat, alloc: nat, written: Option<nat>)

  /** pool is _sendBufferChunks, local is LSendBufferChunk of each thread, buffers are the SendBuffers
      that somebody still references. crashed: an ASSERT_CRASH has failed. */
  datatype World = World(chunks: seq<Chunk>, pool: seq<ChunkId>, local: map<Tid, ChunkId>,
                         buffers: map<BufId, Buffer>, nextBuf: BufId, crashed: bool)

  function Init(): World {
    World([], [], map[], map[], 0, false)
  }

  // ----- the operations -----

  ghost predicate UsedBy(local: map<Tid, ChunkId>, buffers: map<BufId, Buffer>, c: ChunkId) {
    (exists t :: t in local && local[t] == c) || (exists b :: b in buffers && buffers[b].chunk == c)
  }

  ghost predicate Referenced(w: World, c: ChunkId) {
    UsedBy(w.local, w.buffers, c)
  }

  /** A reference to c has gone; the deleter of the last one is PushGlobal. */
  ghost function Unref(w: World, c: ChunkId): World {
    if Referenced(w, c) then w else w.(pool := w.pool + [c])
  }

  function FreshChunk(): Chunk {
    Chunk(seq(CHUNK_SIZE, _ => 0), false, 0)
  }

  function Reset(c: Chunk): Chunk {
    c.(open := false, used := 0)
  }

  /** Pop and Reset: the chunk at the back of the pool, or a new one; it becomes the thread's. */
  function PopReset(w: World, t: Tid): World
    requires InRange(w)
  {
    if w.pool != [] then
      var c := w.pool[|w.pool| - 1];
      w.(pool := w.pool[..|w.pool| - 1], local := w.local[t := c], chunks := w.chunks[c := Reset(w.chunks[c])])
    else
      w.(local := w.local[t := |w.chunks|], chunks := w.chunks + [FreshChunk()])
  }

  /** LSendBufferChunk = Pop(); LSendBufferChunk->Reset(); the chunk it replaces loses a reference. */
  ghost function TakeChunk(w: World, t: Tid): World
    requires InRange(w)
  {
    if t in w.local then Unref(PopReset(w, t), w.local[t]) else PopReset(w, t)
  }

  /** The difference is a uint32. */
  function FreeSize(c: Chunk): nat {
    (CHUNK_SIZE - c.used) % UINT32
  }

  /** SendBufferChunk::Open on the thread's chunk. */
  function OpenChunk(w: World, t: Tid, size: nat): (World, Option<BufId>)
    requires InRange(w) && t in w.local
  {
    var c := w.local[t];
    if size > CHUNK_SIZE || w.chunks[c].open then (w.(crashed := true), None)
    else if size > FreeSize(w.chunks[c]) then (w, None)
    else
      (w.(chunks := w.chunks[c := w.chunks[c].(open := true)],
          buffers := w.buffers[w.nextBuf := Buffer(c, w.chunks[c].used, size, None)],
          nextBuf := w.nextBuf + 1),
       Some(w.nextBuf))
  }

  /** Chunk numbers in use are numbers of chunks, and every chunk has its 12000 bytes. */
  ghost predicate InRange(w: World) {
    && (forall t :: t in w.local ==> w.local[t] < |w.chunks|)
    && (forall i :: 0 <= i < |w.pool| ==> w.pool[i] < |w.chunks|)
    && (forall b :: b in w.buffers ==> w.buffers[b].chunk < |w.chunks| && b < w.nextBuf)
    && (forall c :: 0 <= c < |w.chunks| ==> |w.chunks[c].bytes| == CHUNK_SIZE)
  }

  lemma TakeInRange(w: World, t: Tid)
    requires InRange(w)
    ensures var w' := TakeChunk(w, t);
            InRange(w') && t in w'.local && w'.chunks[w'.local[t]].(bytes := []) == Chunk([], false, 0)
  {
    PopInRange(w, t);
  }

  lemma PopInRange(w: World, t: Tid)
    requires InRange(w)
    ensures var w' := PopReset(w, t);
            && InRange(w') && t in w'.local && w'.chunks[w'.local[t]].(bytes := []) == Chunk([], false, 0)
            && |w.chunks| <= |w'.chunks|
  {
  }

  ghost function OwnChunk(w: World, t: Tid): (w': World)
    requires InRange(w)
    ensures InRange(w') && t in w'.local
  {
    TakeInRange(w, t);
    if t in w.local then w else TakeChunk(w, t)
  }

  /** SendBufferManager::Open. */
  ghost function OpenSpec(w: World, t: Tid, size: nat): (World, Option<BufId>)
    requires InRange(w)
  {
    OpenOn(OwnChunk(w, t), t, size)
  }

  ghost function OpenOn(w: World, t: Tid, size: nat): (World, Option<BufId>)
    requires InRange(w) && t in w.local
  {
    if w.chunks[w.local[t]].open then (w.(crashed := true), None)
    else if FreeSize(w.chunks[w.local[t]]) < size then
      TakeInRange(w, t);
      OpenChunk(TakeChunk(w, t), t, size)
    else OpenChunk(w, t, size)
  }

  /** SendBuffer::Close. */
  ghost function CloseSpec(w: World, b: BufId, size: nat): World
    requires InRange(w)
  {
    if b !in w.buffers then w
    else if size > w.buffers[b].alloc then w.(crashed := true)
    else CloseChunk(SetWritten(w, b, size), w.buffers[b].chunk, size)
  }

  function SetWritten(w: World, b: BufId, size: nat): World
    requires b in w.buffers
  {
    w.(buffers := w.buffers[b := w.buffers[b].(written := Some(size))])
  }

  lemma SetWrittenInRange(w: World, b: BufId, size: nat)
    requires InRange(w) && b in w.buffers
    ensures InRange(SetWritten(w, b, size))
  {
  }

  /** SendBufferChunk::Close. */
  function CloseChunk(w: World, c: ChunkId, size: nat): World
    requires c < |w.chunks|
  {
    if !w.chunks[c].open then w.(crashed := true)
    else w.(chunks := w.chunks[c := w.chunks[c].(open := false, used := (w.chunks[c].used + size) % UINT32)])
  }

  /** The last reference to a buffer goes, and with it the buffer's reference to its chunk. */
  ghost function DropSpec(w: World, b: BufId): World {
    if b !in w.buffers then w else Unref(w.(buffers := w.buffers - {b}), w.buffers[b].chunk)
  }

  /** A thread ends: its reference to its chunk goes with it. */
  ghost function ExitSpec(w: World, t: Tid): World {
    if t !in w.local then w else Unref(w.(local := w.local - {t}), w.local[t])
  }

  /** The holder of a buffer writes one byte of it; a write outside the chunk's array is a crash. */
  ghost function WriteSpec(w: World, b: BufId, offset: nat, value: Byte): World
    requires InRange(w)
  {
    if b !in w.buffers || offset >= w.buffers[b].alloc then w
    else if w.buffers[b].start + offset >= CHUNK_SIZE then w.(crashed := true)
    else WriteByte(w, w.buffers[b].chunk, w.buffers[b].start + offset, value)
  }

  function WriteByte(w: World, c: ChunkId, i: nat, value: Byte): World
    requires c < |w.chunks| && i < |w.chunks[c].bytes|
  {
    w.(chunks := w.chunks[c := w.chunks[c].(bytes := w.chunks[c].bytes[i := value])])
  }

  // ----- what every operation keeps -----

  predicate Apart(x: Buffer, y: Buffer) {
    x.chunk == y.chunk && x.written.Some? && y.written.Some? ==>
      x.start + x.written.value <= y.start || y.start + y.written.value <= x.start
  }

  /** A buffer against its chunk: still open, it starts where the chunk is used up to and fits;
      closed, it lies in the part of the chunk already used. */
  predicate Placed(x: Buffer, c: Chunk) {
    match x.written
    case None => c.open && x.start == c.used && x.start + x.alloc <= CHUNK_SIZE
    case Some(n) => n <= x.alloc && x.start + x.alloc <= CHUNK_SIZE && x.start + n <= c.used
  }

  ghost predicate NoRepeats(pool: seq<ChunkId>) {
    forall i, j :: 0 <= i < j < |pool| ==> pool[i] != pool[j]
  }

  /** The pool holds exactly the chunks nobody references: none is lost, none is in use. */
  ghost predicate PoolIsFree(w: World) {
    NoRepeats(w.pool) && forall c :: 0 <= c < |w.chunks| ==> (c in w.pool <==> !Referenced(w, c))
  }

  lemma UsedPut(local: map<Tid, ChunkId>, buffers: map<BufId, Buffer>, b: BufId, x: Buffer, c: ChunkId)
    requires b in buffers ==> buffers[b].chunk == x.chunk
    ensures UsedBy(local, buffers[b := x], c) <==> UsedBy(local, buffers, c) || c == x.chunk
  {
    if d :| d in buffers && buffers[d].chunk == c { assert d in buffers[b := x] && buffers[b := x][d].chunk == c; }
    if c == x.chunk { assert b in buffers[b := x]; }
  }

  lemma UsedDrop(local: map<Tid, ChunkId>, buffers: map<BufId, Buffer>, b: BufId, c: ChunkId)
    requires b in buffers
    ensures UsedBy(local, buffers, c) <==> UsedBy(local, buffers - {b}, c) || c == buffers[b].chunk
  {
    if d :| d in buffers && buffers[d].chunk == c && d != b {
      assert d in buffers - {b} && (buffers - {b})[d].chunk == c;
    }
  }

  lemma UsedTake(local: map<Tid, ChunkId>, buffers: map<BufId, Buffer>, t: Tid, n: ChunkId, c: ChunkId)
    ensures UsedBy(local[t := n], buffers, n)
    ensures c != n && (t in local ==> c != local[t]) ==>
              (UsedBy(local[t := n], buffers, c) <==> UsedBy(local, buffers, c))
  {
    if u :| u in local && local[u] == c && u != t { assert local[t := n][u] == c; }
    assert local[t := n][t] == n;
  }

  ghost predicate OneThreadPerChunk(w: World) {
    forall t, u :: t in w.local && u in w.local && w.local[t] == w.local[u] ==> t == u
  }

  predicate SameOpen(x: Buffer, y: Buffer) {
    x.written == None && y.written == None && x.chunk == y.chunk
  }

  ghost predicate BuffersPlaced(w: World)
    requires InRange(w)
  {
    && (forall b :: b in w.buffers ==> Placed(w.buffers[b], w.chunks[w.buffers[b].chunk]))
    && (forall b, d :: b in w.buffers && d in w.buffers && b != d ==> Apart(w.buffers[b], w.buffers[d]))
    && (forall b, d :: b in w.buffers && d in w.buffers && SameOpen(w.buffers[b], w.buffers[d]) ==> b == d)
  }

  /** The references to chunks: the pool is what nobody has, and no chunk is two threads'. */
  ghost predicate Refs(w: World) {
    InRange(w) && PoolIsFree(w) && OneThreadPerChunk(w)
  }

  ghost predicate Inv(w: World) {
    && Refs(w) && BuffersPlaced(w)
    && forall c :: 0 <= c < |w.chunks| ==> w.chunks[c].used <= CHUNK_SIZE
  }

  /** The chunk a thread takes had no reference. */
  lemma TakenIsFree(w: World, t: Tid)
    requires Refs(w)
    ensures !Referenced(w, PopReset(w, t).local[t]) && PopReset(w, t).local[t] !in PopReset(w, t).pool
    ensures forall c :: 0 <= c < |w.chunks| && c != PopReset(w, t).local[t] ==>
              (c in w.pool <==> c in PopReset(w, t).pool)
  {
    if w.pool != [] {
      var n := w.pool[|w.pool| - 1];
      assert n in w.pool;
      assert w.pool == w.pool[..|w.pool| - 1] + [n];
    }
  }

  lemma TakePool(w: World, t: Tid)
    requires Refs(w)
    ensures PoolIsFree(TakeChunk(w, t))
  {
    TakenIsFree(w, t);
    var w1 := PopReset(w, t);
    var n := w1.local[t];
    forall c | 0 <= c < |w1.chunks| && (t in w.local ==> c != w.local[t])
      ensures c in w1.pool <==> !Referenced(w1, c)
    {
      UsedTake(w.local, w.buffers, t, n, c);
    }
    assert NoRepeats(w1.pool);
    if t in w.local {
      var o := w.local[t];
      assert Referenced(w, o);
      TookOver(w1, o);
    }
  }

  lemma TookOver(w: World, o: ChunkId)
    requires NoRepeats(w.pool) && o !in w.pool
    requires forall c :: 0 <= c < |w.chunks| && c != o ==> (c in w.pool <==> !Referenced(w, c))
    ensures PoolIsFree(Unref(w, o))
  {
    var w' := Unref(w, o);
    assert forall c :: Referenced(w', c) <==> Referenced(w, c);
  }

  lemma TakeThreads(w: World, t: Tid)
    requires Refs(w)
    ensures OneThreadPerChunk(TakeChunk(w, t))
  {
    TakenIsFree(w, t);
    var w' := TakeChunk(w, t);
    assert forall u :: u in w'.local && u != t ==> u in w.local && w'.local[u] == w.local[u];
  }

  /** The chunk that is taken is nobody's, so every buffer's chunk is as it was. */
  lemma TakeRefs(w: World, t: Tid)
    requires Refs(w)
    ensures var w' := TakeChunk(w, t);
            && Refs(w') && w'.buffers == w.buffers && w'.nextBuf == w.nextBuf && w'.crashed == w.crashed
            && |w.chunks| <= |w'.chunks| && t in w'.local
            && (forall c :: 0 <= c < |w.chunks| && Referenced(w, c) ==> w'.chunks[c] == w.chunks[c])
    ensures (forall c :: 0 <= c < |w.chunks| ==> w.chunks[c].used <= CHUNK_SIZE) ==>
              forall c :: 0 <= c < |TakeChunk(w, t).chunks| ==> TakeChunk(w, t).chunks[c].used <= CHUNK_SIZE
  {
    TakePool(w, t);
    TakeThreads(w, t);
    TakeInRange(w, t);
    TakenIsFree(w, t);
  }

  lemma TakeInv(w: World, t: Tid)
    requires Inv(w)
    ensures InRange(TakeChunk(w, t)) && Inv(TakeChunk(w, t))
    ensures TakeChunk(w, t).buffers == w.buffers && TakeChunk(w, t).nextBuf == w.nextBuf
    ensures TakeChunk(w, t).crashed == w.crashed
    ensures forall c :: 0 <= c < |w.chunks| && Referenced(w, c) ==> TakeChunk(w, t).chunks[c] == w.chunks[c]
  {
    TakeRefs(w, t);
    var w' := TakeChunk(w, t);
    assert forall b :: b in w.buffers ==> Referenced(w, w.buffers[b].chunk);
    assert BuffersPlaced(w');
  }

  /** What the manager's Open gives: it crashes exactly on a size over 12000 or an open chunk; otherwise
      it always succeeds, with room behind everything closed on that chunk. */
  ghost predicate OpenResult(w: World, t: Tid, size: nat, w': World, r: Option<BufId>) {
    && KeepsBytes(w, w')
    && (w'.crashed <==> size > CHUNK_SIZE || (t in w.local && w.local[t] < |w.chunks| && w.chunks[w.local[t]].open))
    && (r.Some? <==> !w'.crashed)
    && (r.None? ==> w'.buffers == w.buffers)
    && (r.Some? ==> r.value !in w.buffers && GaveRoom(w, t, size, w', r.value))
  }

  lemma OpenMeans(w: World, t: Tid, size: nat)
    requires Inv(w) && !w.crashed
    ensures var (w', r) := OpenSpec(w, t, size); Inv(w') && OpenResult(w, t, size, w', r)
  {
    if t in w.local {
      OpenOwn(w, t, size);
    } else {
      TakeInv(w, t);
      TakeInRange(w, t);
      OpenOwn(TakeChunk(w, t), t, size);
    }
  }

  lemma OpenOwn(w: World, t: Tid, size: nat)
    requires Inv(w) && !w.crashed && t in w.local
    ensures var (w', r) := OpenSpec(w, t, size); Inv(w') && OpenResult(w, t, size, w', r)
  {
    var c := w.chunks[w.local[t]];
    if !c.open {
      if FreeSize(c) < size {
        OpenOther(w, t, size);
      } else {
        OpenChunkMeans(w, t, size);
      }
    }
  }

  lemma OpenOther(w: World, t: Tid, size: nat)
    requires Inv(w) && !w.crashed && t in w.local && !w.chunks[w.local[t]].open
    requires FreeSize(w.chunks[w.local[t]]) < size
    ensures var (w', r) := OpenSpec(w, t, size); Inv(w') && OpenResult(w, t, size, w', r)
  {
    TakeInv(w, t);
    TakeInRange(w, t);
    OpenChunkMeans(TakeChunk(w, t), t, size);
  }

  /** Some live buffer is cut from this chunk. */
  ghost predicate HasBuffer(w: World, c: ChunkId) {
    exists b :: b in w.buffers && w.buffers[b].chunk == c
  }

  /** Which chunk an Open that does not crash uses: the thread's own as long as the size fits behind the used mark, and
      the buffer starts there. Otherwise the one that came back to the pool last, or a new one only if the pool is
      empty, from its start; and the chunk the thread had comes to the back of the pool if no buffer is left on it. */
  lemma OpenChooses(w: World, t: Tid, size: nat)
    requires Inv(w) && !w.crashed && size <= CHUNK_SIZE && (t in w.local ==> !w.chunks[w.local[t]].open)
    ensures var w' := OpenSpec(w, t, size).0;
            var n := |w.pool|;
            && w.nextBuf in w'.buffers && t in w'.local
            && (t in w.local && w.chunks[w.local[t]].used + size <= 12000 ==>
                  && w'.buffers[w.nextBuf] == Buffer(w.local[t], w.chunks[w.local[t]].used, size, None)
                  && w'.local == w.local && w'.pool == w.pool && |w'.chunks| == |w.chunks|)
            && (t !in w.local || w.chunks[w.local[t]].used + size > 12000 ==>
                  var c := if n > 0 then w.pool[n - 1] else |w.chunks|;
                  && w'.buffers[w.nextBuf] == Buffer(c, 0, size, None) && w'.local == w.local[t := c]
                  && |w'.chunks| == (if n > 0 then |w.chunks| else |w.chunks| + 1)
                  && w'.pool == (if n > 0 then w.pool[..n - 1] else [])
                                + (if t in w.local && !HasBuffer(w, w.local[t]) then [w.local[t]] else []))
  {
    if t !in w.local {
      TakeInRange(w, t);
    } else if w.chunks[w.local[t]].used + size > CHUNK_SIZE {
      TakeInRange(w, t);
      TakenIsFree(w, t);
      LeavesBehind(w, t);
    }
  }

  /** Nobody but its buffers refers to the chunk a thread gives up. */
  lemma LeavesBehind(w: World, t: Tid)
    requires Refs(w) && t in w.local
    ensures Referenced(PopReset(w, t), w.local[t]) <==> HasBuffer(w, w.local[t])
  {
    TakenIsFree(w, t);
    var w1, c := PopReset(w, t), w.local[t];
    assert Referenced(w, c);
    assert forall u :: u in w1.local && u != t ==> u in w.local && w1.local[u] == w.local[u];
  }

  /** A dropped buffer is gone, and its chunk comes back to the end of the pool if no thread and no other buffer has
      it. */
  lemma DropReturns(w: World, b: BufId)
    requires Inv(w) && b in w.buffers
    ensures var c := w.buffers[b].chunk;
            DropSpec(w, b)
            == w.(buffers := w.buffers - {b},
                  pool := if (exists t :: t in w.local && w.local[t] == c)
                             || (exists d :: d in w.buffers && d != b && w.buffers[d].chunk == c)
                          then w.pool else w.pool + [c])
  {
    var c := w.buffers[b].chunk;
    var rest := w.buffers - {b};
    if d :| d in w.buffers && d != b && w.buffers[d].chunk == c { assert d in rest && rest[d].chunk == c; }
    if d :| d in rest && rest[d].chunk == c { assert d in w.buffers && d != b && w.buffers[d].chunk == c; }
  }

  /** A thread that ends has no chunk any more, and the one it had comes back if no buffer is left on it. */
  lemma ExitReturns(w: World, t: Tid)
    requires Inv(w) && t in w.local
    ensures ExitSpec(w, t) == w.(local := w.local - {t},
                                 pool := if HasBuffer(w, w.local[t]) then w.pool else w.pool + [w.local[t]])
  {
    var rest := w.local - {t};
    assert forall u :: u in rest ==> u in w.local && u != t && rest[u] == w.local[u];
  }

  /** Close of a buffer not yet closed: too large a size is a crash; otherwise it keeps the size, its chunk is no
      longer open, and the used mark is behind what was written. */
  lemma CloseMeans(w: World, b: BufId, size: nat)
    requires Inv(w) && !w.crashed && b in w.buffers && w.buffers[b].written == None
    ensures var x := w.buffers[b];
            CloseSpec(w, b, size)
            == if size > x.alloc then w.(crashed := true)
               else w.(buffers := w.buffers[b := x.(written := Some(size))],
                       chunks := w.chunks[x.chunk := w.chunks[x.chunk].(open := false, used := x.start + size)])
  {
    assert Placed(w.buffers[b], w.chunks[w.buffers[b].chunk]);
  }

  /** Buffer b is new, is cut from the thread's chunk and lies behind everything closed there. */
  ghost predicate GaveRoom(w: World, t: Tid, size: nat, w': World, b: BufId) {
    && t in w'.local && b in w'.buffers
    && var x := w'.buffers[b];
    && x == Buffer(w'.local[t], x.start, size, None)
    && w'.buffers == w.buffers[b := x]
    && x.start + size <= CHUNK_SIZE
    && forall d :: d in w.buffers && w.buffers[d].chunk == x.chunk && w.buffers[d].written.Some?
         ==> w.buffers[d].start + w.buffers[d].written.value <= x.start
  }

  /** The chunks of live buffers have the bytes they had. */
  ghost predicate KeepsBytes(w: World, w': World) {
    forall b :: b in w.buffers && w.buffers[b].chunk < |w.chunks| ==>
      w.buffers[b].chunk < |w'.chunks| && w'.chunks[w.buffers[b].chunk].bytes == w.chunks[w.buffers[b].chunk].bytes
  }

  lemma OpenChunkMeans(w: World, t: Tid, size: nat)
    requires Inv(w) && !w.crashed && t in w.local && !w.chunks[w.local[t]].open
    requires size <= CHUNK_SIZE ==> size <= FreeSize(w.chunks[w.local[t]])
    ensures var (w', r) := OpenChunk(w, t, size); Inv(w') && OpenResult(w, t, size, w', r)
  {
    var w' := OpenChunk(w, t, size).0;
    if OpenChunk(w, t, size).1.Some? {
      var x := w'.buffers[w.nextBuf];
      forall c | 0 <= c < |w.chunks| ensures Referenced(w', c) <==> Referenced(w, c) {
        UsedPut(w.local, w.buffers, w.nextBuf, x, c);
      }
      PutPlaced(w, w', w.nextBuf, x);
      assert PoolIsFree(w');
    }
  }

  /** One buffer is put and its chunk's marks are moved. */
  ghost predicate Puts(w: World, w': World, b: BufId, x: Buffer) {
    && InRange(w) && InRange(w') && BuffersPlaced(w) && x.chunk < |w.chunks|
    && w'.buffers == w.buffers[b := x]
    && |w'.chunks| == |w.chunks| && w'.chunks == w.chunks[x.chunk := w'.chunks[x.chunk]]
    && Placed(x, w'.chunks[x.chunk])
    && w.chunks[x.chunk].used <= w'.chunks[x.chunk].used
    && (forall d :: d in w.buffers && d != b && w.buffers[d].chunk == x.chunk ==> w.buffers[d].written.Some?)
    && (x.written.Some? ==> x.start == w.chunks[x.chunk].used)
  }

  /** Every other buffer stays placed. */
  lemma PutPlaced(w: World, w': World, b: BufId, x: Buffer)
    requires Puts(w, w', b, x)
    ensures BuffersPlaced(w')
  {
    PutEach(w, w', b, x);
    PutApart(w, w', b, x);
  }

  lemma PutEach(w: World, w': World, b: BufId, x: Buffer)
    requires Puts(w, w', b, x)
    ensures forall d :: d in w'.buffers ==> Placed(w'.buffers[d], w'.chunks[w'.buffers[d].chunk])
  {
    forall d | d in w'.buffers ensures Placed(w'.buffers[d], w'.chunks[w'.buffers[d].chunk]) {
      if d != b { assert w'.buffers[d] == w.buffers[d] && Placed(w.buffers[d], w.chunks[w.buffers[d].chunk]); }
    }
  }

  lemma PutApart(w: World, w': World, b: BufId, x: Buffer)
    requires Puts(w, w', b, x)
    ensures forall d :: d in w'.buffers && d != b ==> w'.buffers[d] == w.buffers[d]
    ensures forall d :: d in w'.buffers && d != b ==> Apart(x, w'.buffers[d]) && Apart(w'.buffers[d], x)
  {
    forall d | d in w'.buffers && d != b ensures Apart(x, w'.buffers[d]) && Apart(w'.buffers[d], x) {
      assert w'.buffers[d] == w.buffers[d] && Placed(w.buffers[d], w.chunks[w.buffers[d].chunk]);
    }
  }

  lemma CloseInv(w: World, b: BufId, size: nat)
    requires Inv(w) && !w.crashed && !CloseSpec(w, b, size).crashed
    requires b in w.buffers ==> w.buffers[b].written == None || !w.chunks[w.buffers[b].chunk].open
    ensures Inv(CloseSpec(w, b, size))
  {
    if b in w.buffers {
      var w' := CloseSpec(w, b, size);
      SameReferences(w, w', b);
      assert PoolIsFree(w');
      ClosePlaced(w, b, size);
    }
  }

  lemma SameReferences(w: World, w': World, b: BufId)
    requires b in w.buffers && b in w'.buffers && w'.buffers == w.buffers[b := w'.buffers[b]]
    requires w'.buffers[b].chunk == w.buffers[b].chunk && w'.local == w.local
    ensures forall k :: Referenced(w', k) <==> Referenced(w, k)
  {
    forall k ensures Referenced(w', k) <==> Referenced(w, k) {
      UsedPut(w.local, w.buffers, b, w'.buffers[b], k);
    }
  }

  lemma ClosePlaced(w: World, b: BufId, size: nat)
    requires Inv(w) && !w.crashed && !CloseSpec(w, b, size).crashed && b in w.buffers && w.buffers[b].written == None
    ensures InRange(CloseSpec(w, b, size)) && BuffersPlaced(CloseSpec(w, b, size))
  {
    var w' := CloseSpec(w, b, size);
    var x := w'.buffers[b];
    assert Placed(w.buffers[b], w.chunks[x.chunk]);
    assert forall d :: d in w.buffers && d != b && w.buffers[d].chunk == x.chunk ==>
             !SameOpen(w.buffers[d], w.buffers[b]);
    PutPlaced(w, w', b, x);
  }

  lemma DropRefs(w: World, b: BufId)
    requires Refs(w)
    ensures Refs(DropSpec(w, b))
  {
    if b in w.buffers {
      var w1 := w.(buffers := w.buffers - {b});
      var c := w.buffers[b].chunk;
      assert Referenced(w, c);
      forall k | 0 <= k < |w.chunks| && k != c ensures k in w1.pool <==> !Referenced(w1, k) {
        UsedDrop(w.local, w.buffers, b, k);
      }
      TookOver(w1, c);
    }
  }

  lemma DropInv(w: World, b: BufId)
    requires Inv(w)
    ensures Inv(DropSpec(w, b))
  {
    DropRefs(w, b);
    if b in w.buffers {
      DropPlaced(w, b, DropSpec(w, b));
    }
  }

  lemma ExitRefs(w: World, t: Tid)
    requires Refs(w)
    ensures Refs(ExitSpec(w, t))
  {
    if t in w.local {
      var w1 := w.(local := w.local - {t});
      var c := w.local[t];
      assert Referenced(w, c);
      assert forall u :: u in w1.local ==> u in w.local && w1.local[u] == w.local[u];
      forall k | 0 <= k < |w.chunks| && k != c ensures k in w1.pool <==> !Referenced(w1, k) {
        UsedExit(w.local, w.buffers, t, k);
      }
      TookOver(w1, c);
    }
  }

  lemma ExitInv(w: World, t: Tid)
    requires Inv(w)
    ensures Inv(ExitSpec(w, t))
  {
    ExitRefs(w, t);
    assert BuffersPlaced(ExitSpec(w, t));
  }

  lemma UsedExit(local: map<Tid, ChunkId>, buffers: map<BufId, Buffer>, t: Tid, c: ChunkId)
    requires t in local && c != local[t]
    ensures UsedBy(local, buffers, c) <==> UsedBy(local - {t}, buffers, c)
  {
    if u :| u in local && local[u] == c { assert (local - {t})[u] == c; }
  }

  lemma DropPlaced(w: World, b: BufId, w': World)
    requires InRange(w) && InRange(w') && BuffersPlaced(w) && w'.buffers == w.buffers - {b} && w'.chunks == w.chunks
    ensures BuffersPlaced(w')
  {
    assert forall d :: d in w'.buffers ==> d in w.buffers && w'.buffers[d] == w.buffers[d];
  }

  lemma WriteInv(w: World, b: BufId, offset: nat, value: Byte)
    requires Inv(w) && !w.crashed
    requires b in w.buffers ==> w.buffers[b].written == None
    ensures Inv(WriteSpec(w, b, offset, value)) && !WriteSpec(w, b, offset, value).crashed
  {
  }

  // ----- runs -----

  datatype Move =
    | Open(t: Tid, size: nat)
    | Close(b: BufId, size: nat)
    | Drop(b: BufId)
    | Write(b: BufId, offset: nat, value: Byte)
    | Exit(t: Tid)

  /** What is asked of the callers: nobody writes a closed buffer, and nobody closes a buffer again while
      its chunk is open for another. */
  ghost predicate Allowed(w: World, m: Move)
    requires InRange(w)
  {
    match m
    case Close(b, _) => b in w.buffers ==> w.buffers[b].written == None || !w.chunks[w.buffers[b].chunk].open
    case Write(b, _, _) => b in w.buffers ==> w.buffers[b].written == None
    case _ => true
  }

  ghost function Step(w: World, m: Move): World
    requires InRange(w)
  {
    if w.crashed then w
    else
      match m
      case Open(t, size) => OpenSpec(w, t, size).0
      case Close(b, size) => CloseSpec(w, b, size)
      case Drop(b) => DropSpec(w, b)
      case Write(b, offset, value) => WriteSpec(w, b, offset, value)
      case Exit(t) => ExitSpec(w, t)
  }

  /** w' is a state that a run of allowed moves reaches from w without a crash. */
  ghost predicate Run(w: World, moves: seq<Move>, w': World)
    decreases |moves|
  {
    && InRange(w) && !w.crashed
    && if moves == [] then w' == w
       else Allowed(w, moves[0]) && Run(Step(w, moves[0]), moves[1..], w')
  }

  lemma StepInv(w: World, m: Move)
    requires Inv(w) && !w.crashed && Allowed(w, m) && !Step(w, m).crashed
    ensures Inv(Step(w, m))
  {
    match m
    case Open(t, size) => OpenMeans(w, t, size);
    case Close(b, size) => CloseInv(w, b, size);
    case Drop(b) => DropInv(w, b);
    case Write(b, offset, value) => WriteInv(w, b, offset, value);
    case Exit(t) => ExitInv(w, t);
  }

  lemma {:induction false} RunInv(w: World, moves: seq<Move>, w': World)
    requires Inv(w) && Run(w, moves, w')
    ensures Inv(w') && !w'.crashed
    decreases |moves|
  {
    if moves != [] {
      if Step(w, moves[0]).crashed { assert false; }
      StepInv(w, moves[0]);
      RunInv(Step(w, moves[0]), moves[1..], w');
    }
  }

  /** In every state of every run: the written ranges of closed live buffers are pairwise disjoint and
      inside their chunks, no pooled chunk has a live buffer, every chunk that nobody references is in
      the pool, and no chunk is used beyond its size. */
  lemma LiveBuffersDisjoint(moves: seq<Move>, w: World)
    requires Run(Init(), moves, w)
    ensures InRange(w)
    ensures forall b, d :: b in w.buffers && d in w.buffers && b != d ==> Apart(w.buffers[b], w.buffers[d])
    ensures forall b :: b in w.buffers && w.buffers[b].written.Some? ==>
              w.buffers[b].start + w.buffers[b].written.value <= w.chunks[w.buffers[b].chunk].used
    ensures forall c :: 0 <= c < |w.chunks| ==> (c in w.pool <==> !Referenced(w, c))
    ensures forall c :: 0 <= c < |w.chunks| ==> w.chunks[c].used <= CHUNK_SIZE
  {
    RunInv(Init(), moves, w);
  }

  /** The bytes a closed buffer was closed with. */
  ghost function Content(w: World, b: BufId): seq<Byte>
    requires Inv(w) && b in w.buffers && w.buffers[b].written.Some?
  {
    var buf := w.buffers[b];
    assert Placed(buf, w.chunks[buf.chunk]);
    w.chunks[buf.chunk].bytes[buf.start..buf.start + buf.written.value]
  }

  lemma WriteKeepsContent(w: World, d: BufId, offset: nat, value: Byte, b: BufId)
    requires Inv(w) && !w.crashed && b in w.buffers && w.buffers[b].written.Some?
    requires d in w.buffers ==> w.buffers[d].written == None
    requires Inv(WriteSpec(w, d, offset, value))
    ensures b in WriteSpec(w, d, offset, value).buffers && WriteSpec(w, d, offset, value).buffers[b] == w.buffers[b]
    ensures Content(WriteSpec(w, d, offset, value), b) == Content(w, b)
  {
    var buf := w.buffers[b];
    if d in w.buffers && w.buffers[d].chunk == buf.chunk {
      assert Placed(w.buffers[d], w.chunks[buf.chunk]) && Placed(buf, w.chunks[buf.chunk]);
    }
  }

  lemma SameContent(w: World, w': World, b: BufId)
    requires Inv(w) && Inv(w') && b in w.buffers && w.buffers[b].written.Some?
    requires b in w'.buffers && w'.buffers[b] == w.buffers[b]
    requires w'.chunks[w.buffers[b].chunk].bytes == w.chunks[w.buffers[b].chunk].bytes
    ensures Content(w', b) == Content(w, b)
  {
  }

  lemma CloseKeepsContent(w: World, d: BufId, size: nat, b: BufId)
    requires Inv(w) && !w.crashed && b in w.buffers && w.buffers[b].written.Some?
    requires !CloseSpec(w, d, size).crashed && Inv(CloseSpec(w, d, size))
    requires d in w.buffers ==> w.buffers[d].written == None || !w.chunks[w.buffers[d].chunk].open
    ensures b in CloseSpec(w, d, size).buffers && CloseSpec(w, d, size).buffers[b] == w.buffers[b]
    ensures Content(CloseSpec(w, d, size), b) == Content(w, b)
  {
    SameContent(w, CloseSpec(w, d, size), b);
  }

  lemma StepKeepsContent(w: World, m: Move, b: BufId)
    requires Inv(w) && !w.crashed && Allowed(w, m) && !Step(w, m).crashed && Inv(Step(w, m))
    requires b in w.buffers && w.buffers[b].written.Some? && m != Drop(b)
    ensures b in Step(w, m).buffers && Step(w, m).buffers[b] == w.buffers[b]
    ensures Content(Step(w, m), b) == Content(w, b)
  {
    match m
    case Open(t, size) =>
      OpenMeans(w, t, size);
      SameContent(w, Step(w, m), b);
    case Close(d, size) => CloseKeepsContent(w, d, size, b);
    case Drop(d) => SameContent(w, Step(w, m), b);
    case Write(d, offset, value) => WriteKeepsContent(w, d, offset, value, b);
    case Exit(t) => SameContent(w, Step(w, m), b);
  }

  /** Once a buffer is closed its bytes stay as they are, whatever any thread does, until its own last
      reference goes. */
  lemma {:induction false} ClosedBufferImmutable(w: World, moves: seq<Move>, w': World, b: BufId)
    requires Inv(w) && Run(w, moves, w')
    requires b in w.buffers && w.buffers[b].written.Some? && Drop(b) !in moves
    ensures Inv(w') && b in w'.buffers && w'.buffers[b] == w.buffers[b]
    ensures Content(w', b) == Content(w, b)
    decreases |moves|
  {
    if moves != [] {
      if Step(w, moves[0]).crashed { assert false; }
      StepInv(w, moves[0]);
      assert moves[0] in moves;
      StepKeepsContent(w, moves[0], b);
      ClosedBufferImmutable(Step(w, moves[0]), moves[1..], w', b);
    }
  }

  /** A buffer dropped while open leaves its chunk open: the thread's next Open crashes. */
  lemma DroppedWhileOpen(w: World, t: Tid, b: BufId, size: nat)
    requires Inv(w) && !w.crashed && t in w.local
    requires b in w.buffers && w.buffers[b].written == None && w.buffers[b].chunk == w.local[t]
    ensures Inv(DropSpec(w, b)) && OpenSpec(DropSpec(w, b), t, size).0.crashed
  {
    DropInv(w, b);
    assert Placed(w.buffers[b], w.chunks[w.buffers[b].chunk]);
    OpenMeans(DropSpec(w, b), t, size);
  }

  /** From the start, Open and Drop get there, for all sizes. */
  lemma DroppedRun(t: Tid, alloc: nat, size: nat) returns (w: World)
    requires alloc <= CHUNK_SIZE
    ensures Run(Init(), [Open(t, alloc), Drop(0)], w) && Inv(w) && !w.crashed && Step(w, Open(t, size)).crashed
  {
    FirstOpen(t, alloc);
    var w1 := Step(Init(), Open(t, alloc));
    assert Inv(Init()) && InRange(w1);
    StepInv(Init(), Open(t, alloc));
    DroppedWhileOpen(w1, t, 0, size);
    w := DropSpec(w1, 0);
    assert Run(w1, [Drop(0)], w) by { assert Run(w, [], w); }
    assert [Open(t, alloc), Drop(0)][1..] == [Drop(0)];
  }

  lemma FirstOpen(t: Tid, alloc: nat)
    requires alloc <= CHUNK_SIZE
    ensures Step(Init(), Open(t, alloc))
            == World([FreshChunk().(open := true)], [], map[t := 0], map[0 := Buffer(0, 0, alloc, None)], 1, false)
  {
    var w := Init().(local := map[t := 0], chunks := [FreshChunk()]);
    assert TakeChunk(Init(), t) == w;
    assert w.chunks[0 := FreshChunk().(open := true)] == [FreshChunk().(open := true)];
  }
}
