/** The whole of what a second Close does: when the bytes of closed buffers may still change, over every
    continuation by moves that are allowed. */
module Aftermath {
  import opened Wrappers
  import opened SendBuffer
  import opened SecondClose

  /** The next move leaves the bytes of every closed buffer as they are, but for one it drops. */
  ghost predicate Stable(w: World)
    requires InRange(w)
  {
    forall m: Move, x: BufId :: Allowed(w, m) && !Step(w, m).crashed && m != Drop(x) && Closed(w, x) ==>
      Closed(Step(w, m), x) && Bytes(Step(w, m), x) == Bytes(w, x)
  }

  predicate Closed(w: World, x: BufId) {
    x in w.buffers && w.buffers[x].written.Some?
  }

  /** No allowed run from w changes the bytes of a closed buffer. */
  ghost predicate Immutable(w: World) {
    forall moves: seq<Move>, v: World :: Run(w, moves, v) ==> InRange(v) && Stable(v)
  }

  lemma {:induction false} RunAppend(w: World, m: Move, moves: seq<Move>, v: World)
    requires InRange(w) && !w.crashed && Allowed(w, m) && Run(Step(w, m), moves, v)
    ensures Run(w, [m] + moves, v)
  {
    assert ([m] + moves)[1..] == moves;
  }

  /** What does not hold of a later state does not hold of an earlier one. */
  lemma Later(w: World, m: Move)
    requires InRange(w) && !w.crashed && Allowed(w, m) && !Immutable(Step(w, m))
    ensures !Immutable(w)
  {
    var moves: seq<Move>, v: World :| Run(Step(w, m), moves, v) && !(InRange(v) && Stable(v));
    RunAppend(w, m, moves, v);
  }

  // ----- where it fails -----

  /** A chunk of thread t that is not open, with a buffer x cut from it and never closed. */
  ghost predicate LeftOpen(w: World, t: Tid, x: BufId) {
    && InRange(w) && !w.crashed && t in w.local && !w.chunks[w.local[t]].open
    && x in w.buffers && w.buffers[x].written == None && w.buffers[x].chunk == w.local[t]
  }

  /** t opens a buffer, x is closed with nothing in it, t opens another at the same place, and the first of the
      two is closed: the second writes into it. */
  lemma TwoInOnePlace(w: World, t: Tid, x: BufId)
    requires LeftOpen(w, t, x) && w.chunks[w.local[t]].used < CHUNK_SIZE
    ensures !Immutable(w)
  {
    var c := w.local[t];
    var e := w.nextBuf;
    var w1 := Step(w, Open(t, 1));
    OpensHere(w, t, 1);
    var w2 := Step(w1, Close(x, 0));
    ClosesHere(w1, t, x, 0);
    OpensBehind(w2, t, e);
    Later(w1, Close(x, 0));
    Later(w, Open(t, 1));
  }

  /** e is the newest buffer, of one byte, and starts at the used mark. */
  lemma OpensBehind(w: World, t: Tid, e: BufId)
    requires LeftOpen(w, t, e) && e + 1 == w.nextBuf
    requires w.buffers[e].start == w.chunks[w.local[t]].used < CHUNK_SIZE && w.buffers[e].alloc == 1
    ensures !Immutable(w)
  {
    var w1 := Step(w, Open(t, 1));
    OpensHere(w, t, 1);
    var w2 := Step(w1, Close(e, 1));
    ClosesHere(w1, t, e, 1);
    SecondWrites(w2, t, e);
    Later(w1, Close(e, 1));
    Later(w, Open(t, 1));
  }

  lemma OpensHere(w: World, t: Tid, size: nat)
    requires InRange(w) && !w.crashed && t in w.local && !w.chunks[w.local[t]].open
    requires size <= CHUNK_SIZE && size <= FreeSize(w.chunks[w.local[t]])
    ensures var c := w.local[t];
            var w' := Step(w, Open(t, size));
            && InRange(w') && !w'.crashed && w'.local == w.local && w'.nextBuf == w.nextBuf + 1
            && w'.chunks == w.chunks[c := w.chunks[c].(open := true)]
            && w'.buffers == w.buffers[w.nextBuf := Buffer(c, w.chunks[c].used, size, None)]
  {
  }

  lemma ClosesHere(w: World, t: Tid, x: BufId, n: nat)
    requires InRange(w) && !w.crashed && t in w.local && w.chunks[w.local[t]].open
    requires x in w.buffers && w.buffers[x].written == None && w.buffers[x].chunk == w.local[t]
    requires n <= w.buffers[x].alloc
    ensures var c := w.local[t];
            var w' := Step(w, Close(x, n));
            && Allowed(w, Close(x, n))
            && InRange(w') && !w'.crashed && w'.local == w.local && w'.nextBuf == w.nextBuf
            && w'.chunks == w.chunks[c := w.chunks[c].(open := false, used := (w.chunks[c].used + n) % UINT32)]
            && w'.buffers == w.buffers[x := w.buffers[x].(written := Some(n))]
  {
  }

  lemma SecondWrites(w: World, t: Tid, e: BufId)
    requires InRange(w) && !w.crashed && e in w.buffers && e + 1 in w.buffers
    requires w.buffers[e].chunk == w.buffers[e + 1].chunk
    requires w.buffers[e].start == w.buffers[e + 1].start < CHUNK_SIZE
    requires w.buffers[e].written == Some(1) && w.buffers[e + 1].written == None && w.buffers[e + 1].alloc == 1
    ensures !Immutable(w)
  {
    var x := w.buffers[e];
    var bytes := w.chunks[x.chunk].bytes;
    var m := Write(e + 1, 0, bytes[x.start] + 1);
    SliceChanged(bytes, x.start, 1, 0, bytes[x.start] + 1);
    var w' := Step(w, m);
    assert w'.chunks[x.chunk].bytes == bytes[x.start := bytes[x.start] + 1];
    assert Bytes(w', e) != Bytes(w, e) && Closed(w, e) && Allowed(w, m);
    assert !Stable(w) && Run(w, [], w);
  }

  /** With the used mark beyond the chunk every Open succeeds there, and filled buffers push the mark on until
      it wraps to inside the chunk again. */
  lemma {:induction false} Wraps(w: World, t: Tid, x: BufId)
    requires LeftOpen(w, t, x) && CHUNK_SIZE < w.chunks[w.local[t]].used < UINT32
    ensures !Immutable(w)
    decreases UINT32 - w.chunks[w.local[t]].used
  {
    var c := w.local[t];
    var used := w.chunks[c].used;
    OpensHere(w, t, CHUNK_SIZE);
    var w1 := Step(w, Open(t, CHUNK_SIZE));
    ClosesHere(w1, t, w.nextBuf, CHUNK_SIZE);
    var w2 := Step(w1, Close(w.nextBuf, CHUNK_SIZE));
    assert LeftOpen(w2, t, x);
    if used + CHUNK_SIZE < UINT32 {
      assert w2.chunks[c].used == used + CHUNK_SIZE;
      Wraps(w2, t, x);
    } else {
      assert w2.chunks[c].used == used + CHUNK_SIZE - UINT32;
      TwoInOnePlace(w2, t, x);
    }
    Later(w1, Close(w.nextBuf, CHUNK_SIZE));
    Later(w, Open(t, CHUNK_SIZE));
  }

  /** With the mark at the very end, closing a buffer that is not empty pushes it beyond. */
  lemma PushesOver(w: World, t: Tid, x: BufId)
    requires LeftOpen(w, t, x) && w.chunks[w.local[t]].used == CHUNK_SIZE && 0 < w.buffers[x].alloc <= CHUNK_SIZE
    ensures !Immutable(w)
  {
    OpensHere(w, t, 0);
    var w1 := Step(w, Open(t, 0));
    ClosesHere(w1, t, x, w.buffers[x].alloc);
    var w2 := Step(w1, Close(x, w.buffers[x].alloc));
    assert LeftOpen(w2, t, w.nextBuf);
    Wraps(w2, t, w.nextBuf);
    Later(w1, Close(x, w.buffers[x].alloc));
    Later(w, Open(t, 0));
  }

  // ----- where it holds -----

  /** A closed buffer ends below the used mark. A buffer not closed starts at the mark of its open chunk, or is
      empty on a chunk that is full. */
  predicate Marked(x: Buffer, c: Chunk) {
    match x.written
    case Some(n) => x.start + n <= c.used
    case None => (c.open && x.start == c.used && x.start + x.alloc <= CHUNK_SIZE)
                 || (x.alloc == 0 && x.start <= c.used == CHUNK_SIZE)
  }

  ghost predicate BuffersMarked(w: World)
    requires InRange(w)
  {
    && (forall b :: b in w.buffers ==> Marked(w.buffers[b], w.chunks[w.buffers[b].chunk]))
    && (forall b, d :: b in w.buffers && d in w.buffers && b != d && SameOpen(w.buffers[b], w.buffers[d]) ==>
          w.chunks[w.buffers[b].chunk].used == CHUNK_SIZE)
  }

  ghost predicate Kept(w: World) {
    && Refs(w) && BuffersMarked(w)
    && forall c :: 0 <= c < |w.chunks| ==> w.chunks[c].used <= CHUNK_SIZE
  }

  /** Buffer b of chunk c is put, and the chunk's marks move. */
  lemma PutMarked(w: World, w': World, b: BufId, x: Buffer)
    requires Kept(w) && InRange(w') && x.chunk < |w.chunks|
    requires w'.buffers == w.buffers[b := x] && |w'.chunks| == |w.chunks|
    requires w'.chunks == w.chunks[x.chunk := w'.chunks[x.chunk]]
    requires w.chunks[x.chunk].used <= w'.chunks[x.chunk].used <= CHUNK_SIZE
    requires Marked(x, w'.chunks[x.chunk])
    requires forall d :: d in w.buffers && d != b && w.buffers[d].chunk == x.chunk && w.buffers[d].written == None ==>
               w.chunks[x.chunk].used == CHUNK_SIZE
    ensures BuffersMarked(w')
  {
    forall d | d in w'.buffers ensures Marked(w'.buffers[d], w'.chunks[w'.buffers[d].chunk]) {
      if d != b { assert w'.buffers[d] == w.buffers[d] && Marked(w.buffers[d], w.chunks[w.buffers[d].chunk]); }
    }
    forall d, e | d in w'.buffers && e in w'.buffers && d != e && SameOpen(w'.buffers[d], w'.buffers[e])
      ensures w'.chunks[w'.buffers[d].chunk].used == CHUNK_SIZE
    {
      assert d != b ==> w'.buffers[d] == w.buffers[d];
      assert e != b ==> w'.buffers[e] == w.buffers[e];
    }
  }

  lemma OpenChunkKept(w: World, t: Tid, size: nat)
    requires Kept(w) && !w.crashed && t in w.local && !w.chunks[w.local[t]].open
    requires size <= CHUNK_SIZE && size <= FreeSize(w.chunks[w.local[t]])
    ensures Kept(OpenChunk(w, t, size).0)
  {
    var w' := OpenChunk(w, t, size).0;
    var x := w'.buffers[w.nextBuf];
    forall c | 0 <= c < |w.chunks| ensures Referenced(w', c) <==> Referenced(w, c) {
      UsedPut(w.local, w.buffers, w.nextBuf, x, c);
    }
    forall d | d in w.buffers && w.buffers[d].chunk == x.chunk && w.buffers[d].written == None
      ensures w.chunks[x.chunk].used == CHUNK_SIZE
    {
      assert Marked(w.buffers[d], w.chunks[x.chunk]);
    }
    PutMarked(w, w', w.nextBuf, x);
  }

  lemma TakeKept(w: World, t: Tid)
    requires Kept(w)
    ensures Kept(TakeChunk(w, t)) && TakeChunk(w, t).crashed == w.crashed
  {
    TakeRefs(w, t);
    assert forall b :: b in w.buffers ==> Referenced(w, w.buffers[b].chunk);
  }

  lemma OpenKept(w: World, t: Tid, size: nat)
    requires Kept(w) && !w.crashed && !OpenSpec(w, t, size).0.crashed
    ensures Kept(OpenSpec(w, t, size).0)
  {
    if t !in w.local { TakeKept(w, t); }
    OpenOnKept(OwnChunk(w, t), t, size);
  }

  lemma OpenOnKept(w: World, t: Tid, size: nat)
    requires Kept(w) && !w.crashed && t in w.local && !OpenOn(w, t, size).0.crashed
    ensures Kept(OpenOn(w, t, size).0)
  {
    if FreeSize(w.chunks[w.local[t]]) < size {
      TakeKept(w, t);
      TakeInRange(w, t);
      OpenChunkKept(TakeChunk(w, t), t, size);
    } else {
      OpenChunkKept(w, t, size);
    }
  }

  lemma CloseKept(w: World, b: BufId, size: nat)
    requires Kept(w) && !w.crashed && Allowed(w, Close(b, size)) && !CloseSpec(w, b, size).crashed
    ensures Kept(CloseSpec(w, b, size))
  {
    if b in w.buffers {
      var w' := CloseSpec(w, b, size);
      CloseMarks(w, b, size);
      SameReferences(w, w', b);
      forall d | d in w.buffers && d != b && w.buffers[d].chunk == w.buffers[b].chunk && w.buffers[d].written == None
        ensures w.chunks[w.buffers[b].chunk].used == CHUNK_SIZE
      {
        assert SameOpen(w.buffers[b], w.buffers[d]);
      }
      PutMarked(w, w', b, w'.buffers[b]);
    }
  }

  /** The one buffer and the one chunk a Close changes. */
  lemma CloseMarks(w: World, b: BufId, size: nat)
    requires Kept(w) && !w.crashed && Allowed(w, Close(b, size)) && !CloseSpec(w, b, size).crashed && b in w.buffers
    ensures var w' := CloseSpec(w, b, size);
            var c := w.buffers[b].chunk;
            && w.buffers[b].written == None && !w'.crashed
            && w'.local == w.local && w'.pool == w.pool && w'.nextBuf == w.nextBuf
            && w'.buffers == w.buffers[b := w.buffers[b].(written := Some(size))]
            && w'.chunks == w.chunks[c := w.chunks[c].(open := false, used := w.chunks[c].used + size)]
            && w.chunks[c].used + size <= CHUNK_SIZE
            && Marked(w.buffers[b].(written := Some(size)), w'.chunks[c])
  {
    assert Marked(w.buffers[b], w.chunks[w.buffers[b].chunk]);
  }

  lemma StepKept(w: World, m: Move)
    requires Kept(w) && !w.crashed && Allowed(w, m) && !Step(w, m).crashed
    ensures Kept(Step(w, m))
  {
    match m
    case Open(t, size) => OpenKept(w, t, size);
    case Close(b, size) => CloseKept(w, b, size);
    case Drop(b) => DropRefs(w, b);
    case Write(b, offset, value) =>
    case Exit(t) => ExitRefs(w, t);
  }

  lemma KeptStable(w: World)
    requires Kept(w) && !w.crashed
    ensures Stable(w)
  {
    forall b: BufId, offset: nat, value: Byte, x: BufId | Allowed(w, Write(b, offset, value)) && Closed(w, x)
      ensures WriteKeeps(w, b, offset, value, x)
    {
      WriteStable(w, b, offset, value, x);
    }
    OnlyWrites(w);
  }

  ghost predicate WriteKeeps(w: World, b: BufId, offset: nat, value: Byte, x: BufId)
    requires InRange(w)
  {
    Bytes(WriteSpec(w, b, offset, value), x) == Bytes(w, x)
  }

  /** No other move changes bytes. */
  lemma OnlyWrites(w: World)
    requires InRange(w) && !w.crashed
    requires forall b: BufId, offset: nat, value: Byte, x: BufId ::
               Allowed(w, Write(b, offset, value)) && !WriteSpec(w, b, offset, value).crashed && Closed(w, x) ==>
                 WriteKeeps(w, b, offset, value, x)
    ensures Stable(w)
  {
    forall m: Move, x: BufId | Allowed(w, m) && !Step(w, m).crashed && m != Drop(x) && Closed(w, x)
      ensures Closed(Step(w, m), x) && Bytes(Step(w, m), x) == Bytes(w, x)
    {
      match m
      case Open(t, size) => OpenStable(w, t, size, x);
      case Close(b, size) => CloseStable(w, b, size, x);
      case Drop(b) =>
      case Write(b, offset, value) => assert WriteKeeps(w, b, offset, value, x);
      case Exit(t) =>
    }
  }

  lemma OpenStable(w: World, t: Tid, size: nat, x: BufId)
    requires InRange(w) && !w.crashed && Closed(w, x)
    ensures Closed(OpenSpec(w, t, size).0, x) && Bytes(OpenSpec(w, t, size).0, x) == Bytes(w, x)
  {
    if t !in w.local { TakeStable(w, t, x); }
    OpenOnStable(OwnChunk(w, t), t, size, x);
  }

  lemma OpenOnStable(w: World, t: Tid, size: nat, x: BufId)
    requires InRange(w) && t in w.local && Closed(w, x)
    ensures Closed(OpenOn(w, t, size).0, x) && Bytes(OpenOn(w, t, size).0, x) == Bytes(w, x)
  {
    if !w.chunks[w.local[t]].open {
      if FreeSize(w.chunks[w.local[t]]) < size {
        TakeStable(w, t, x);
        OpenChunkStable(TakeChunk(w, t), t, size, x);
      } else {
        OpenChunkStable(w, t, size, x);
      }
    }
  }

  lemma OpenChunkStable(w: World, t: Tid, size: nat, x: BufId)
    requires InRange(w) && t in w.local && Closed(w, x)
    ensures Closed(OpenChunk(w, t, size).0, x) && Bytes(OpenChunk(w, t, size).0, x) == Bytes(w, x)
  {
  }

  lemma TakeStable(w: World, t: Tid, x: BufId)
    requires InRange(w) && Closed(w, x)
    ensures InRange(TakeChunk(w, t)) && t in TakeChunk(w, t).local
    ensures Closed(TakeChunk(w, t), x) && Bytes(TakeChunk(w, t), x) == Bytes(w, x)
  {
    TakeInRange(w, t);
  }

  lemma CloseStable(w: World, b: BufId, size: nat, x: BufId)
    requires InRange(w) && !w.crashed && Allowed(w, Close(b, size)) && !CloseSpec(w, b, size).crashed && Closed(w, x)
    ensures Closed(CloseSpec(w, b, size), x) && Bytes(CloseSpec(w, b, size), x) == Bytes(w, x)
  {
    assert b != x;
  }

  lemma WriteStable(w: World, b: BufId, offset: nat, value: Byte, x: BufId)
    requires Kept(w) && !w.crashed && Closed(w, x) && Allowed(w, Write(b, offset, value))
    ensures WriteKeeps(w, b, offset, value, x)
  {
    assert Marked(w.buffers[x], w.chunks[w.buffers[x].chunk]);
    if b in w.buffers && offset < w.buffers[b].alloc && w.buffers[b].chunk == w.buffers[x].chunk {
      assert Marked(w.buffers[b], w.chunks[w.buffers[b].chunk]);
      BehindKeeps(w, b, offset, value, x);
    }
  }

  lemma {:induction false} RunKept(w: World, moves: seq<Move>, v: World)
    requires Kept(w) && Run(w, moves, v)
    ensures Kept(v) && !v.crashed
    decreases |moves|
  {
    if moves != [] {
      if Step(w, moves[0]).crashed { assert false; }
      StepKept(w, moves[0]);
      RunKept(Step(w, moves[0]), moves[1..], v);
    }
  }

  lemma KeptImmutable(w: World)
    requires Kept(w)
    ensures Immutable(w)
  {
    forall moves: seq<Move>, v: World | Run(w, moves, v) ensures InRange(v) && Stable(v) {
      RunKept(w, moves, v);
      KeptStable(v);
    }
  }

  // ----- exactly when -----

  /** No next move changes a byte of a closed buffer, exactly when the buffer closed again does not reach into
      the open one, or the open one is empty. */
  lemma StableIff(w: World, t: Tid, a: BufId, n: nat, d: BufId)
    requires Situation(w, t, a, n, d)
    ensures Stable(Reclosed(w, t, a, n, d))
            <==> w.buffers[a].start + n <= w.buffers[d].start || w.buffers[d].alloc == 0
  {
    var w1 := Reclosed(w, t, a, n, d);
    ReclosedOverwrittenIff(w, t, a, n, d);
    if offset: nat, value: Byte :| WriteChanges(w1, d, offset, value, a) {
      assert Closed(w1, a) && Bytes(Step(w1, Write(d, offset, value)), a) != Bytes(w1, a);
    } else {
      forall b: BufId, offset: nat, value: Byte, x: BufId |
        Allowed(w1, Write(b, offset, value)) && !WriteSpec(w1, b, offset, value).crashed && Closed(w1, x)
        ensures WriteKeeps(w1, b, offset, value, x)
      {
        assert !WriteChanges(w1, d, offset, value, a);
        ReclosedWrite(w, t, a, n, d, b, offset, value, x);
      }
      OnlyWrites(w1);
    }
  }

  lemma ReclosedWrite(w: World, t: Tid, a: BufId, n: nat, d: BufId, b: BufId, offset: nat, value: Byte, x: BufId)
    requires Situation(w, t, a, n, d) && Closed(Reclosed(w, t, a, n, d), x)
    requires Allowed(Reclosed(w, t, a, n, d), Write(b, offset, value))
    requires !WriteSpec(Reclosed(w, t, a, n, d), b, offset, value).crashed
    requires !WriteChanges(Reclosed(w, t, a, n, d), d, offset, value, a)
    ensures WriteKeeps(Reclosed(w, t, a, n, d), b, offset, value, x)
  {
    var w1 := Reclosed(w, t, a, n, d);
    if x == a {
      if b in w.buffers && w.buffers[b].chunk == w.buffers[a].chunk {
        assert SameOpen(w.buffers[b], w.buffers[d]);
      }
    } else if b in w.buffers && w.buffers[b].chunk == w.buffers[x].chunk {
      OpenBehind(w, b, x);
      BehindKeeps(w1, b, offset, value, x);
    }
  }

  lemma BehindKeeps(w: World, b: BufId, offset: nat, value: Byte, x: BufId)
    requires InRange(w) && b in w.buffers && Closed(w, x) && w.buffers[b].chunk == w.buffers[x].chunk
    requires w.buffers[x].start + w.buffers[x].written.value <= w.buffers[b].start
    ensures WriteKeeps(w, b, offset, value, x)
  {
    if offset < w.buffers[b].alloc && w.buffers[b].start + offset < CHUNK_SIZE {
      SliceSame(w.chunks[w.buffers[x].chunk].bytes, w.buffers[x].start, w.buffers[x].written.value,
                w.buffers[b].start + offset, value);
    }
  }

  lemma OpenBehind(w: World, b: BufId, x: BufId)
    requires Inv(w) && b in w.buffers && Closed(w, x) && w.buffers[b].written == None
    requires w.buffers[b].chunk == w.buffers[x].chunk
    ensures w.buffers[x].start + w.buffers[x].written.value <= w.buffers[b].start
  {
    assert Placed(w.buffers[b], w.chunks[w.buffers[b].chunk]) && Placed(w.buffers[x], w.chunks[w.buffers[x].chunk]);
  }

  /** After the second Close no allowed continuation changes a byte of a closed buffer, exactly when the used
      mark is at the very end of the chunk and the open buffer had asked for nothing. */
  lemma ImmutableIff(w: World, t: Tid, a: BufId, n: nat, d: BufId)
    requires Situation(w, t, a, n, d)
    ensures Immutable(Reclosed(w, t, a, n, d)) <==> w.buffers[d].start + n == CHUNK_SIZE && w.buffers[d].alloc == 0
  {
    var w1 := Reclosed(w, t, a, n, d);
    var used := w.buffers[d].start + n;
    assert Placed(w.buffers[a], w.chunks[w.local[t]]) && Placed(w.buffers[d], w.chunks[w.local[t]]);
    assert LeftOpen(w1, t, d);
    if used < CHUNK_SIZE {
      TwoInOnePlace(w1, t, d);
    } else if used > CHUNK_SIZE {
      Wraps(w1, t, d);
    } else if w.buffers[d].alloc > 0 {
      PushesOver(w1, t, d);
    } else {
      ReclosedKept(w, t, a, n, d);
      KeptImmutable(w1);
    }
  }

  lemma ReclosedKept(w: World, t: Tid, a: BufId, n: nat, d: BufId)
    requires Situation(w, t, a, n, d) && w.buffers[d].start + n == CHUNK_SIZE && w.buffers[d].alloc == 0
    ensures Kept(Reclosed(w, t, a, n, d))
  {
    var w1 := Reclosed(w, t, a, n, d);
    SameReferences(w, w1, a);
    assert Placed(w.buffers[a], w.chunks[w.local[t]]) && Placed(w.buffers[d], w.chunks[w.local[t]]);
    forall b | b in w1.buffers ensures Marked(w1.buffers[b], w1.chunks[w1.buffers[b].chunk]) {
      assert Placed(w.buffers[b], w.chunks[w.buffers[b].chunk]);
    }
    forall b, e | b in w1.buffers && e in w1.buffers && SameOpen(w1.buffers[b], w1.buffers[e]) ensures b == e {
      assert SameOpen(w.buffers[b], w.buffers[e]);
    }
  }

  /** Without a second Close it always holds. */
  lemma InvImmutable(w: World)
    requires Inv(w)
    ensures Immutable(w)
  {
    forall b | b in w.buffers ensures Marked(w.buffers[b], w.chunks[w.buffers[b].chunk]) {
      assert Placed(w.buffers[b], w.chunks[w.buffers[b].chunk]);
    }
    KeptImmutable(w);
  }
}
