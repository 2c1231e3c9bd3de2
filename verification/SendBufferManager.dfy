/** The classes of ServerCore/SendBuffer.h. Every method is proved to do to the manager's World what
    module SendBuffer says. */
module SendBufferManager {
  import opened Wrappers
  import Spec = SendBuffer

  type Byte = Spec.Byte

  class SendBufferChunk {
    const id: Spec.ChunkId
    const buffer: array<Byte>
    var isOpen: bool
    var usedSize: nat

    constructor (id: Spec.ChunkId)
      ensures this.id == id && fresh(buffer) && State() == Spec.FreshChunk()
    {
      this.id := id;
      buffer := new Byte[Spec.CHUNK_SIZE](_ => 0);
      isOpen := false;
      usedSize := 0;
      new;
      assert buffer[..] == Spec.FreshChunk().bytes;
    }

    ghost function State(): Spec.Chunk reads this, buffer {
      Spec.Chunk(buffer[..], isOpen, usedSize)
    }

    method Reset()
      modifies this
      ensures State() == Spec.Reset(old(State()))
    {
      isOpen := false;
      usedSize := 0;
    }

    method FreeSize() returns (size: nat)
      ensures size == Spec.FreeSize(State())
    {
      size := (Spec.CHUNK_SIZE - usedSize) % Spec.UINT32;
    }

    /** None with crashed false is the nullptr. name is the number the new buffer goes by. */
    method Open(name: Spec.BufId, allocSize: nat) returns (crashed: bool, r: Option<SendBuffer>)
      modifies this
      ensures crashed <==> allocSize > Spec.CHUNK_SIZE || old(isOpen)
      ensures r.Some? <==> !crashed && allocSize <= Spec.FreeSize(old(State()))
      ensures State() == old(State()).(open := r.Some? || old(isOpen))
      ensures r.Some? ==> fresh(r.value) && r.value.id == name && r.value.owner == this
                          && r.value.State() == Spec.Buffer(id, usedSize, allocSize, None)
    {
      if allocSize > Spec.CHUNK_SIZE || isOpen { return true, None; }
      var free := FreeSize();
      if allocSize > free { return false, None; }
      isOpen := true;
      var b := new SendBuffer(name, this, usedSize, allocSize);
      return false, Some(b);
    }

    method Close(writeSize: nat) returns (crashed: bool)
      modifies this
      ensures crashed == !old(isOpen)
      ensures State() == if crashed then old(State())
                         else old(State()).(open := false, used := (old(usedSize) + writeSize) % Spec.UINT32)
    {
      if !isOpen { return true; }
      isOpen := false;
      usedSize := (usedSize + writeSize) % Spec.UINT32;
      return false;
    }
  }

  class SendBuffer {
    const id: Spec.BufId
    const owner: SendBufferChunk
    const start: nat
    const allocSize: nat
    var written: Option<nat>

    constructor (id: Spec.BufId, owner: SendBufferChunk, start: nat, allocSize: nat)
      ensures this.id == id && this.owner == owner && State() == Spec.Buffer(owner.id, start, allocSize, None)
    {
      this.id := id;
      this.owner := owner;
      this.start := start;
      this.allocSize := allocSize;
      written := None;
    }

    ghost function State(): Spec.Buffer reads this {
      Spec.Buffer(owner.id, start, allocSize, written)
    }

    method SetWritten(writeSize: nat)
      modifies this
      ensures State() == old(State()).(written := Some(writeSize))
    {
      written := Some(writeSize);
    }
  }

  /** A shared pointer to a chunk is the chunk's number in chunks. pool is _sendBufferChunks, local holds
      LSendBufferChunk of every thread and live the buffers that somebody references. */
  class SendBufferManager {
    var chunks: seq<SendBufferChunk>
    var pool: seq<Spec.ChunkId>
    var local: map<Spec.Tid, Spec.ChunkId>
    var live: map<Spec.BufId, SendBuffer>
    var nextBuf: Spec.BufId
    var crashed: bool
    ghost var world: Spec.World
    ghost var repr: set<object>
    ghost var home: map<array<Byte>, Spec.ChunkId>

    /** Chunk i has number i and an array of its own. */
    ghost predicate ShowsChunks(cs: seq<Spec.Chunk>) reads this, repr {
      && |cs| == |chunks|
      && (forall i :: 0 <= i < |chunks| ==> chunks[i] in repr && chunks[i].buffer in repr)
      && (forall i :: 0 <= i < |chunks| ==> chunks[i].id == i && chunks[i].State() == cs[i])
      && (forall i :: 0 <= i < |chunks| ==> chunks[i].buffer in home && home[chunks[i].buffer] == i)
    }

    ghost predicate ShowsBuffers(bs: map<Spec.BufId, Spec.Buffer>) reads this, repr {
      && bs.Keys == live.Keys
      && (forall b :: b in live ==> live[b] in repr && live[b].State() == bs[b])
      && (forall b :: b in live ==> live[b].owner.id < |chunks| && chunks[live[b].owner.id] == live[b].owner)
      && (forall b :: b in live ==> live[b].id == b)
    }

    /** world is the value these objects stand for. */
    ghost predicate Valid() reads this, repr {
      && this in repr
      && world == Spec.World(world.chunks, pool, local, world.buffers, nextBuf, crashed)
      && Spec.InRange(world) && ShowsChunks(world.chunks) && ShowsBuffers(world.buffers)
    }

    constructor ()
      ensures Valid() && world == Spec.Init()
      ensures fresh(repr)
    {
      chunks, pool, local, live, nextBuf, crashed := [], [], map[], map[], 0, false;
      world := Spec.Init();
      repr := {this};
      home := map[];
    }

    /** The chunk at the back of the pool, or a new one. */
    method Pop() returns (c: Spec.ChunkId)
      requires Valid()
      modifies this
      ensures Valid() && fresh(repr - old(repr))
      ensures if old(pool) != []
              then c == old(pool)[|old(pool)| - 1] && world == old(world).(pool := old(pool)[..|old(pool)| - 1])
              else c == old(|chunks|) && world == old(world).(chunks := old(world).chunks + [Spec.FreshChunk()])
    {
      if pool != [] {
        c := pool[|pool| - 1];
        pool := pool[..|pool| - 1];
        world := world.(pool := pool);
      } else {
        c := |chunks|;
        NewChunk();
      }
    }

    method NewChunk()
      requires Valid()
      modifies this
      ensures Valid() && fresh(repr - old(repr))
      ensures world == old(world).(chunks := old(world).chunks + [Spec.FreshChunk()])
    {
      var chunk := new SendBufferChunk(|chunks|);
      home := home[chunk.buffer := |chunks|];
      chunks := chunks + [chunk];
      repr := repr + {chunk, chunk.buffer};
      world := world.(chunks := world.chunks + [Spec.FreshChunk()]);
    }

    /** LSendBufferChunk = Pop(); LSendBufferChunk->Reset(); */
    method Take(t: Spec.Tid)
      requires Valid()
      modifies repr
      ensures Valid() && fresh(repr - old(repr))
      ensures world == Spec.TakeChunk(old(world), t)
    {
      var had := t in local;
      var before := if had then local[t] else 0;
      PopReset(t);
      if had { Release(before); }
    }

    method PopReset(t: Spec.Tid)
      requires Valid()
      modifies repr
      ensures Valid() && fresh(repr - old(repr))
      ensures world == Spec.PopReset(old(world), t)
    {
      ghost var w := world;
      var c := Pop();
      ResetChunk(c);
      SetLocal(t, c);
      assert world.chunks == Spec.PopReset(w, t).chunks;
    }

    method SetLocal(t: Spec.Tid, c: Spec.ChunkId)
      requires Valid() && c < |chunks|
      modifies this
      ensures Valid() && repr == old(repr)
      ensures world == old(world).(local := old(world).local[t := c])
    {
      local := local[t := c];
      world := world.(local := local);
    }

    method ResetChunk(c: Spec.ChunkId)
      requires Valid() && c < |chunks|
      modifies repr
      ensures Valid() && repr == old(repr)
      ensures world == old(world).(chunks := old(world).chunks[c := Spec.Reset(old(world).chunks[c])])
    {
      chunks[c].Reset();
      world := world.(chunks := world.chunks[c := Spec.Reset(world.chunks[c])]);
    }

    /** A shared pointer to c has gone; the deleter of the last one is PushGlobal. */
    method Release(c: Spec.ChunkId)
      requires Valid() && c < |chunks|
      modifies this
      ensures Valid() && repr == old(repr)
      ensures world == Spec.Unref(old(world), c)
    {
      var more := HasReference(c);
      if !more {
        pool := pool + [c];
        world := world.(pool := pool);
      }
    }

    method HasReference(c: Spec.ChunkId) returns (r: bool)
      requires Valid()
      ensures r <==> Spec.Referenced(world, c)
    {
      r := c in local.Values || exists b :: b in live.Keys && live[b].owner.id == c;
      if b :| b in live.Keys && live[b].owner.id == c { assert world.buffers[b].chunk == c; }
    }

    /** SendBufferManager::Open; None without a crash would be a nullptr. */
    method Open(t: Spec.Tid, size: nat) returns (r: Option<Spec.BufId>)
      requires Valid()
      modifies repr
      ensures Valid() && fresh(repr - old(repr))
      ensures (world, r) == Spec.OpenSpec(old(world), t, size)
    {
      if t !in local { Take(t); }
      r := OpenOn(t, size);
    }

    method OpenOn(t: Spec.Tid, size: nat) returns (r: Option<Spec.BufId>)
      requires Valid() && t in local
      modifies repr
      ensures Valid() && fresh(repr - old(repr))
      ensures (world, r) == Spec.OpenOn(old(world), t, size)
    {
      assert world.chunks[local[t]] == chunks[local[t]].State();
      var open := chunks[local[t]].isOpen;
      var free := chunks[local[t]].FreeSize();
      if open {
        Crash();
        return None;
      }
      if free < size { Take(t); }
      r := OpenChunk(t, size);
    }

    method Crash()
      requires Valid()
      modifies this
      ensures Valid() && repr == old(repr) && world == old(world).(crashed := true)
    {
      crashed := true;
      world := world.(crashed := true);
    }

    method OpenChunk(t: Spec.Tid, size: nat) returns (r: Option<Spec.BufId>)
      requires Valid() && t in local
      modifies repr
      ensures Valid() && fresh(repr - old(repr))
      ensures (world, r) == Spec.OpenChunk(old(world), t, size)
    {
      var fails, buffer := CallOpen(local[t], size);
      r := None;
      if buffer.Some? {
        r := Some(nextBuf);
        Register(buffer.value);
      } else if fails {
        Crash();
      }
    }

    /** SendBufferChunk::Open on chunk c. */
    method CallOpen(c: Spec.ChunkId, size: nat) returns (fails: bool, r: Option<SendBuffer>)
      requires Valid() && c < |chunks|
      modifies repr
      ensures Valid() && repr == old(repr) && chunks == old(chunks)
      ensures fails <==> size > Spec.CHUNK_SIZE || old(world).chunks[c].open
      ensures r.Some? <==> !fails && size <= Spec.FreeSize(old(world).chunks[c])
      ensures world == if r.None? then old(world)
                       else old(world).(chunks := old(world).chunks[c := old(world).chunks[c].(open := true)])
      ensures r.Some? ==> fresh(r.value) && r.value.id == nextBuf && r.value.owner == chunks[c]
                          && r.value.State() == Spec.Buffer(c, old(world).chunks[c].used, size, None)
    {
      var chunk := chunks[c];
      assert world.chunks[c] == chunk.State();
      fails, r := chunk.Open(nextBuf, size);
      ghost var w := if r.None? then world
                     else world.(chunks := world.chunks[c := world.chunks[c].(open := true)]);
      assert ShowsBuffers(w.buffers);
      assert ShowsChunks(w.chunks);
      world := w;
    }

    method Register(buffer: SendBuffer)
      requires Valid() && buffer.id == nextBuf
      requires buffer.owner.id < |chunks| && chunks[buffer.owner.id] == buffer.owner
      modifies this
      ensures Valid() && repr == old(repr) + {buffer}
      ensures world == old(world).(buffers := old(world).buffers[buffer.id := buffer.State()],
                                   nextBuf := old(nextBuf) + 1)
    {
      live := live[nextBuf := buffer];
      world := world.(buffers := world.buffers[nextBuf := buffer.State()], nextBuf := nextBuf + 1);
      nextBuf := nextBuf + 1;
      repr := repr + {buffer};
    }

    /** SendBuffer::Close on a live buffer. */
    method Close(b: Spec.BufId, size: nat)
      requires Valid()
      modifies repr
      ensures Valid() && repr == old(repr)
      ensures world == Spec.CloseSpec(old(world), b, size)
    {
      if b in live {
        var c := live[b].owner.id;
        if size > live[b].allocSize {
          Crash();
        } else {
          SetWritten(b, size);
          CloseChunk(c, size);
        }
      }
    }

    method SetWritten(b: Spec.BufId, size: nat)
      requires Valid() && b in live
      modifies repr
      ensures Valid() && repr == old(repr)
      ensures world == Spec.SetWritten(old(world), b, size)
    {
      Spec.SetWrittenInRange(world, b, size);
      world := Spec.SetWritten(world, b, size);
      live[b].SetWritten(size);
    }

    method CloseChunk(c: Spec.ChunkId, size: nat)
      requires Valid() && c < |chunks|
      modifies repr
      ensures Valid() && repr == old(repr)
      ensures world == Spec.CloseChunk(old(world), c, size)
    {
      var fails := CallClose(c, size);
      if fails { Crash(); }
    }

    /** SendBufferChunk::Close on chunk c. */
    method CallClose(c: Spec.ChunkId, size: nat) returns (fails: bool)
      requires Valid() && c < |chunks|
      modifies repr
      ensures Valid() && repr == old(repr)
      ensures fails <==> !old(world).chunks[c].open
      ensures world == if fails then old(world) else Spec.CloseChunk(old(world), c, size)
    {
      var chunk := chunks[c];
      assert world.chunks[c] == chunk.State();
      ghost var w := if world.chunks[c].open then Spec.CloseChunk(world, c, size) else world;
      assert Spec.InRange(w);
      fails := chunk.Close(size);
      assert ShowsBuffers(w.buffers);
      assert ShowsChunks(w.chunks);
      world := w;
    }

    /** The last reference to buffer b goes. */
    method Drop(b: Spec.BufId)
      requires Valid()
      modifies this
      ensures Valid() && repr == old(repr)
      ensures world == Spec.DropSpec(old(world), b)
    {
      if b in live {
        var c := live[b].owner.id;
        live := live - {b};
        world := world.(buffers := world.buffers - {b});
        Release(c);
      }
    }

    /** Thread t ends, and its thread-local pointer with it. */
    method Exit(t: Spec.Tid)
      requires Valid()
      modifies this
      ensures Valid() && repr == old(repr)
      ensures world == Spec.ExitSpec(old(world), t)
    {
      if t in local {
        var c := local[t];
        local := local - {t};
        world := world.(local := local);
        Release(c);
      }
    }

    /** The holder of b writes one byte through Buffer(). */
    method Write(b: Spec.BufId, offset: nat, value: Byte)
      requires Valid()
      modifies repr
      ensures Valid() && repr == old(repr)
      ensures world == Spec.WriteSpec(old(world), b, offset, value)
    {
      if b in live && offset < live[b].allocSize {
        var i := live[b].start + offset;
        if i >= Spec.CHUNK_SIZE { Crash(); } else { WriteByte(live[b].owner.id, i, value); }
      }
    }

    method WriteByte(c: Spec.ChunkId, i: nat, value: Byte)
      requires Valid() && c < |chunks| && i < Spec.CHUNK_SIZE
      modifies repr
      ensures Valid() && repr == old(repr)
      ensures world == Spec.WriteByte(old(world), c, i, value)
    {
      var chunk := chunks[c];
      assert world.chunks[c] == chunk.State();
      ghost var w := Spec.WriteByte(world, c, i, value);
      assert Spec.InRange(w);
      chunk.buffer[i] := value;
      assert ShowsBuffers(w.buffers);
      assert ShowsChunks(w.chunks);
      world := w;
    }
  }
}
