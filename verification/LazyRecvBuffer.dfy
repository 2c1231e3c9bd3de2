/** ServerCore/RecvBuffer.cpp: twice the buffer size, and compaction only when less than the buffer size is
    free at the end. */
module LazyRecvBuffer {
  import Cost = LazyCompaction

  type Byte = x: nat | x < 256

  class RecvBuffer {
    const bufferSize: nat
    const buffer: array<Byte>
    var readPos: int
    var writePos: int
    ghost var cursors: Cost.Cursors

    /** cursors follow the fields and count the bytes received and copied so far. */
    ghost predicate Valid() reads this {
      && buffer.Length == bufferSize * Cost.BUFFER_COUNT
      && Cost.Valid(bufferSize, cursors)
      && cursors.read == readPos && cursors.write == writePos
    }

    ghost function Unread(): seq<Byte>
      requires Valid()
      reads this, buffer
    {
      buffer[readPos..writePos]
    }

    constructor (bufferSize: nat)
      ensures Valid() && fresh(buffer) && this.bufferSize == bufferSize
      ensures cursors == Cost.New() && Unread() == []
    {
      this.bufferSize := bufferSize;
      buffer := new Byte[bufferSize * Cost.BUFFER_COUNT](_ => 0);
      readPos, writePos := 0, 0;
      cursors := Cost.New();
    }

    function DataSize(): int reads this {
      writePos - readPos
    }

    function FreeSize(): int reads this {
      buffer.Length - writePos
    }

    /** Keeps the unread bytes, also where the ranges overlap; memcpy is an ascending copy. */
    method Clean()
      requires Valid()
      modifies this, buffer
      ensures Valid() && Unread() == old(Unread())
      ensures cursors == Cost.Clean(bufferSize, old(cursors))
      ensures FreeSize() >= bufferSize <==> |Unread()| <= bufferSize
      ensures old(Unread()) == [] ==> readPos == writePos == 0 && FreeSize() == 2 * bufferSize
      ensures old(Unread()) != [] && old(FreeSize()) < bufferSize ==> readPos == 0 && writePos == |old(Unread())|
      ensures old(Unread()) != [] && old(FreeSize()) >= bufferSize ==>
                readPos == old(readPos) && writePos == old(writePos) && buffer[..] == old(buffer[..])
    {
      var dataSize := DataSize();
      if dataSize == 0 {
        readPos, writePos := 0, 0;
      } else if FreeSize() < bufferSize {
        CopyDown(dataSize);
        readPos := 0;
        writePos := dataSize;
      }
      Cost.RoomIff(bufferSize, cursors);
      cursors := Cost.Clean(bufferSize, cursors);
    }

    /** Byte by byte, lowest address first: a byte is overwritten only after it has been copied. */
    method CopyDown(n: nat)
      requires 0 <= readPos && readPos + n <= buffer.Length
      modifies buffer
      ensures buffer[..n] == old(buffer[readPos..readPos + n])
    {
      var i := 0;
      while i < n
        invariant 0 <= i <= n
        invariant forall k :: 0 <= k < i ==> buffer[k] == old(buffer[readPos + k])
        invariant forall k :: i <= k < buffer.Length ==> buffer[k] == old(buffer[k])
      {
        buffer[i] := buffer[readPos + i];
        i := i + 1;
      }
    }

    /** The source does not test for a negative number of bytes: the read position then moves back. */
    method OnRead(numOfBytes: int) returns (ok: bool)
      requires Valid()
      modifies this
      ensures ok <==> numOfBytes <= |old(Unread())|
      ensures readPos == old(readPos) + (if ok then numOfBytes else 0) && writePos == old(writePos)
      ensures numOfBytes >= 0 ==> Valid() && cursors == Cost.OnRead(old(cursors), numOfBytes)
      ensures numOfBytes >= 0 ==> Unread() == if ok then old(Unread())[numOfBytes..] else old(Unread())
    {
      if numOfBytes >= 0 { cursors := Cost.OnRead(cursors, numOfBytes); }
      if numOfBytes > DataSize() { return false; }
      readPos := readPos + numOfBytes;
      return true;
    }

    /** What lies behind the write position becomes unread. */
    method OnWrite(numOfBytes: int) returns (ok: bool)
      requires Valid()
      modifies this
      ensures ok <==> numOfBytes <= old(FreeSize())
      ensures writePos == old(writePos) + (if ok then numOfBytes else 0) && readPos == old(readPos)
      ensures numOfBytes >= 0 ==> Valid() && cursors == Cost.OnWrite(bufferSize, old(cursors), numOfBytes)
      ensures numOfBytes >= 0 && ok ==> Unread() == old(Unread()) + buffer[old(writePos)..old(writePos) + numOfBytes]
    {
      if numOfBytes >= 0 { cursors := Cost.OnWrite(bufferSize, cursors, numOfBytes); }
      if numOfBytes > FreeSize() { return false; }
      writePos := writePos + numOfBytes;
      return true;
    }
  }
}
