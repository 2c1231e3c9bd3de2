/** DummyClient/Network/RecvBuffer.cs: a byte array with a read and a write position. */
module RecvBuffer {
  import opened Framing

  class RecvBuffer {
    const buffer: array<Byte>
    var readPos: int
    var writePos: int

    ghost predicate Valid() reads this {
      0 <= readPos <= writePos <= buffer.Length
    }

    /** The bytes received and not yet read. */
    ghost function Unread(): seq<Byte>
      requires Valid()
      reads this, buffer
    {
      buffer[readPos..writePos]
    }

    constructor (bufferSize: nat)
      ensures Valid() && fresh(buffer) && buffer.Length == bufferSize
      ensures readPos == 0 && writePos == 0
    {
      buffer := new Byte[bufferSize](_ => 0);
      readPos := 0;
      writePos := 0;
    }

    function DataSize(): int reads this {
      writePos - readPos
    }

    function FreeSize(): int reads this {
      buffer.Length - writePos
    }

    /** Moves the unread bytes to the front; Array.Copy copies overlapping ranges as if at once. */
    method Clean()
      requires Valid()
      modifies this, buffer
      ensures Valid() && Unread() == old(Unread())
      ensures readPos == 0 && FreeSize() == buffer.Length - |old(Unread())|
      ensures buffer[..] == old(Unread()) + old(buffer[|Unread()|..])
    {
      var dataSize := DataSize();
      if dataSize == 0 {
        readPos, writePos := 0, 0;
      } else {
        forall i | 0 <= i < dataSize {
          buffer[i] := buffer[readPos + i];
        }
        readPos := 0;
        writePos := dataSize;
      }
    }

    /** The source does not test for a negative number of bytes. */
    method OnRead(numOfBytes: int) returns (ok: bool)
      requires Valid()
      modifies this
      ensures ok <==> numOfBytes <= |old(Unread())|
      ensures readPos == old(readPos) + (if ok then numOfBytes else 0) && writePos == old(writePos)
      ensures numOfBytes >= 0 ==> Valid() && Unread() == if ok then old(Unread())[numOfBytes..] else old(Unread())
    {
      if numOfBytes > DataSize() { return false; }
      readPos := readPos + numOfBytes;
      return true;
    }

    /** What lies behind the write position becomes unread. */
    method OnWrite(numOfBytes: int) returns (ok: bool)
      requires Valid()
      modifies this
      ensures ok <==> numOfBytes <= old(FreeSize())
      ensures writePos == old(writePos) + (if ok then numOfBytes else 0) && readPos == old(readPos)
      ensures numOfBytes >= 0 ==> Valid()
      ensures numOfBytes >= 0 && ok ==> Unread() == old(Unread()) + buffer[old(writePos)..old(writePos) + numOfBytes]
    {
      if numOfBytes > FreeSize() { return false; }
      writePos := writePos + numOfBytes;
      return true;
    }

    /** The socket stores received bytes at the start of the array it was given. */
    method LandAtStart(bytes: seq<Byte>)
      requires |bytes| <= buffer.Length
      modifies buffer
      ensures buffer[..] == bytes + old(buffer[|bytes|..])
    {
      forall i | 0 <= i < |bytes| {
        buffer[i] := bytes[i];
      }
      assert buffer[..|bytes|] == bytes && buffer[..] == buffer[..|bytes|] + buffer[|bytes|..];
    }

    /** The socket stores received bytes at the write position. */
    method Land(bytes: seq<Byte>)
      requires Valid() && |bytes| <= FreeSize()
      modifies buffer
      ensures Unread() == old(Unread())
      ensures buffer[writePos..writePos + |bytes|] == bytes
    {
      forall i | 0 <= i < |bytes| {
        buffer[writePos + i] := bytes[i];
      }
    }
  }
}
