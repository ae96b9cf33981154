/** `muduo::net::Buffer`: a byte queue in a window of a resizable array, with space kept in
    front of it for prepending. */
module ByteBuffer {
  import opened Arithmetic
  import opened NetworkOrder

  const CHEAP_PREPEND: nat := 8
  const INITIAL_SIZE: nat := 1024

  /** The stack buffer of `readFd`. */
  const EXTRA_SIZE: nat := 65536

  /** What `readv` does: it fails with an error number, or reads so many bytes. */
  datatype Read = Failed(errno: int) | Got(bytes: seq<byte>)

  class Buffer {
    var buffer: array<byte>
    var readerIndex: nat
    var writerIndex: nat

    predicate Valid()
      reads this, buffer
    {
      readerIndex <= writerIndex <= buffer.Length && CHEAP_PREPEND <= buffer.Length
    }

    /** The bytes to be retrieved, in order. */
    ghost function Contents(): seq<byte>
      requires Valid()
      reads this, buffer
    {
      buffer[readerIndex..writerIndex]
    }

    /** The bytes at the very front of the array, where a frame header may be kept. */
    ghost function Reserve(): seq<byte>
      requires Valid()
      reads this, buffer
    {
      buffer[..CHEAP_PREPEND]
    }

    function ReadableBytes(): (n: nat)
      requires Valid()
      reads this, buffer
      ensures n == |Contents()|
    {
      writerIndex - readerIndex
    }

    function WritableBytes(): nat
      requires Valid()
      reads this, buffer
    {
      buffer.Length - writerIndex
    }

    function PrependableBytes(): nat
      reads this
    {
      readerIndex
    }

    constructor (initialSize: nat)
      ensures Valid() && fresh(buffer) && Contents() == []
      ensures WritableBytes() == initialSize && PrependableBytes() == CHEAP_PREPEND
    {
      buffer := new byte[CHEAP_PREPEND + initialSize](_ => 0);
      readerIndex, writerIndex := CHEAP_PREPEND, CHEAP_PREPEND;
    }

    method Retrieve(len: nat)
      requires Valid() && len <= ReadableBytes()
      modifies this`readerIndex, this`writerIndex
      ensures Valid() && Contents() == old(Contents())[len..] && Reserve() == old(Reserve())
      ensures Contents() == [] ==> PrependableBytes() == CHEAP_PREPEND
    {
      if len < ReadableBytes() {
        readerIndex := readerIndex + len;
      } else {
        RetrieveAll();
      }
    }

    method RetrieveAll()
      requires Valid()
      modifies this`readerIndex, this`writerIndex
      ensures Valid() && Contents() == [] && PrependableBytes() == CHEAP_PREPEND && Reserve() == old(Reserve())
    {
      readerIndex, writerIndex := CHEAP_PREPEND, CHEAP_PREPEND;
    }

    method RetrieveAsString(len: nat) returns (result: seq<byte>)
      requires Valid() && len <= ReadableBytes()
      modifies this`readerIndex, this`writerIndex
      ensures Valid() && old(Contents()) == result + Contents() && |result| == len && Reserve() == old(Reserve())
      ensures Contents() == [] ==> PrependableBytes() == CHEAP_PREPEND
    {
      result := buffer[readerIndex..readerIndex + len];
      Retrieve(len);
    }

    /** `std::copy` of the readable bytes down to `CHEAP_PREPEND`, front to back: the ranges may
        overlap, but no byte is overwritten before it is moved. */
    method MoveDown()
      requires Valid() && CHEAP_PREPEND < readerIndex
      modifies this`readerIndex, this`writerIndex, buffer
      ensures Valid() && Contents() == old(Contents()) && Reserve() == old(Reserve())
      ensures readerIndex == CHEAP_PREPEND && writerIndex == CHEAP_PREPEND + |old(Contents())|
    {
      ghost var was := buffer[..];
      var readable := ReadableBytes();
      var k := 0;
      while k < readable
        invariant 0 <= k <= readable && Valid() && readable == writerIndex - readerIndex
        invariant readerIndex == old(readerIndex) && writerIndex == old(writerIndex)
        invariant forall j :: 0 <= j < CHEAP_PREPEND ==> buffer[j] == was[j]
        invariant forall j :: CHEAP_PREPEND <= j < CHEAP_PREPEND + k ==> buffer[j] == was[j - CHEAP_PREPEND + readerIndex]
        invariant forall j :: CHEAP_PREPEND + k <= j < buffer.Length ==> buffer[j] == was[j]
      {
        buffer[CHEAP_PREPEND + k] := buffer[readerIndex + k];
        k := k + 1;
      }
      readerIndex := CHEAP_PREPEND;
      writerIndex := readerIndex + readable;
    }

    /** `buffer_.resize`. */
    method Resize(size: nat)
      requires Valid() && buffer.Length <= size
      modifies this`buffer
      ensures Valid() && fresh(buffer) && buffer.Length == size
      ensures forall j :: 0 <= j < old(buffer.Length) ==> buffer[j] == old(buffer[j])
    {
      var bigger := new byte[size](_ => 0);
      var k := 0;
      while k < buffer.Length
        invariant 0 <= k <= buffer.Length && buffer == old(buffer) && buffer[..] == old(buffer[..])
        invariant forall j :: 0 <= j < k ==> bigger[j] == buffer[j]
      {
        bigger[k] := buffer[k];
        k := k + 1;
      }
      buffer := bigger;
    }

    /** The assertion in the branch that compacts always holds: where the space suffices but
        the tail of the array does not, the reader has moved on. */
    method MakeSpace(len: nat)
      requires Valid() && WritableBytes() < len
      modifies this, buffer
      ensures Valid() && (buffer == old(buffer) || fresh(buffer))
      ensures Contents() == old(Contents()) && Reserve() == old(Reserve()) && len <= WritableBytes()
      ensures readerIndex == old(readerIndex) || readerIndex == CHEAP_PREPEND
      ensures buffer == old(buffer) <==> CHEAP_PREPEND + |old(Contents())| + len <= old(buffer.Length)
      ensures buffer != old(buffer) ==> WritableBytes() == len
    {
      if WritableBytes() + PrependableBytes() < len + CHEAP_PREPEND {
        Resize(writerIndex + len);
      } else {
        assert CHEAP_PREPEND < readerIndex;
        MoveDown();
      }
    }

    method EnsureWritableBytes(len: nat)
      requires Valid()
      modifies this, buffer
      ensures len <= old(WritableBytes()) ==> buffer == old(buffer) && readerIndex == old(readerIndex) && writerIndex == old(writerIndex)
      ensures Valid() && (buffer == old(buffer) || fresh(buffer))
      ensures Contents() == old(Contents()) && Reserve() == old(Reserve()) && len <= WritableBytes()
      ensures readerIndex == old(readerIndex) || readerIndex == CHEAP_PREPEND
    {
      if WritableBytes() < len {
        MakeSpace(len);
      }
    }

    /** Bytes copied behind the window, which does not take them in yet. */
    method WriteBehind(data: seq<byte>)
      requires Valid() && |data| <= WritableBytes()
      modifies buffer
      ensures Valid() && Contents() == old(Contents())
      ensures buffer[writerIndex..writerIndex + |data|] == data
      ensures buffer[readerIndex..writerIndex + |data|] == old(Contents()) + data
      ensures writerIndex >= CHEAP_PREPEND ==> Reserve() == old(Reserve())
    {
      var k := 0;
      while k < |data|
        invariant 0 <= k <= |data| && Valid()
        invariant forall j :: 0 <= j < writerIndex ==> buffer[j] == old(buffer[j])
        invariant forall j :: writerIndex <= j < writerIndex + k ==> buffer[j] == data[j - writerIndex]
      {
        buffer[writerIndex + k] := data[k];
        k := k + 1;
      }
      assert buffer[writerIndex..writerIndex + |data|] == data && buffer[readerIndex..writerIndex] == old(Contents());
      Slices(buffer[..], readerIndex, writerIndex, writerIndex + |data|);
    }

    /** Bytes written through `begin()`, into the reserve. */
    method WriteReserve(data: seq<byte>)
      requires Valid() && |data| <= CHEAP_PREPEND <= readerIndex
      modifies buffer
      ensures Valid() && Contents() == old(Contents())
      ensures Reserve() == data + old(Reserve())[|data|..]
    {
      var k := 0;
      while k < |data|
        invariant 0 <= k <= |data| && Valid()
        invariant forall j :: 0 <= j < k ==> buffer[j] == data[j]
        invariant forall j :: k <= j < buffer.Length ==> buffer[j] == old(buffer[j])
      {
        buffer[k] := data[k];
        k := k + 1;
      }
    }

    method HasWritten(len: nat)
      requires Valid() && len <= WritableBytes()
      modifies this`writerIndex
      ensures Valid() && writerIndex == old(writerIndex) + len && Reserve() == old(Reserve())
      ensures Contents() == old(Contents()) + old(buffer[writerIndex..writerIndex + len])
    {
      writerIndex := writerIndex + len;
    }

    method Unwrite(len: nat)
      requires Valid() && len <= ReadableBytes()
      modifies this`writerIndex
      ensures Valid() && Contents() == old(Contents())[..|old(Contents())| - len] && Reserve() == old(Reserve())
    {
      writerIndex := writerIndex - len;
    }

    method Append(data: seq<byte>)
      requires Valid()
      modifies this, buffer
      ensures Valid() && (buffer == old(buffer) || fresh(buffer))
      ensures Contents() == old(Contents()) + data
      ensures old(writerIndex) >= CHEAP_PREPEND ==> Reserve() == old(Reserve())
      ensures readerIndex == old(readerIndex) || readerIndex == CHEAP_PREPEND
      ensures |data| <= old(WritableBytes()) ==>
                buffer == old(buffer) && readerIndex == old(readerIndex) && WritableBytes() == old(WritableBytes()) - |data|
    {
      EnsureWritableBytes(|data|);
      WriteBehind(data);
      HasWritten(|data|);
    }

    method Prepend(data: seq<byte>)
      requires Valid() && |data| <= PrependableBytes()
      modifies this`readerIndex, buffer
      ensures Valid() && Contents() == data + old(Contents())
    {
      readerIndex := readerIndex - |data|;
      var k := 0;
      while k < |data|
        invariant 0 <= k <= |data| && Valid() && readerIndex == old(readerIndex) - |data|
        invariant forall j :: readerIndex <= j < readerIndex + k ==> buffer[j] == data[j - readerIndex]
        invariant forall j :: readerIndex + |data| <= j < buffer.Length ==> buffer[j] == old(buffer[j])
      {
        buffer[readerIndex + k] := data[k];
        k := k + 1;
      }
    }

    method Swap(rhs: Buffer)
      requires Valid() && rhs.Valid()
      modifies this, rhs
      ensures Valid() && rhs.Valid() && buffer == old(rhs.buffer) && rhs.buffer == old(buffer)
      ensures Contents() == old(rhs.Contents()) && rhs.Contents() == old(Contents())
      ensures WritableBytes() == old(rhs.WritableBytes())
    {
      buffer, rhs.buffer := rhs.buffer, buffer;
      readerIndex, rhs.readerIndex := rhs.readerIndex, readerIndex;
      writerIndex, rhs.writerIndex := rhs.writerIndex, writerIndex;
    }

    /** Moves the contents into a new array with room for `reserve` more bytes. */
    method Shrink(reserve: nat)
      requires Valid()
      modifies this
      ensures Valid() && fresh(buffer) && Contents() == old(Contents()) && reserve <= WritableBytes()
      ensures PrependableBytes() == CHEAP_PREPEND
    {
      var other := new Buffer(INITIAL_SIZE);
      other.EnsureWritableBytes(ReadableBytes() + reserve);
      other.Append(buffer[readerIndex..writerIndex]);
      Swap(other);
    }

    /** How much one call of `readFd` asks for. */
    function ReadLimit(): nat
      requires Valid()
      reads this, buffer
    {
      if WritableBytes() < EXTRA_SIZE then WritableBytes() + EXTRA_SIZE else WritableBytes()
    }

    /** A scatter read behind the window and, when that is full, into a stack buffer that is then
        appended: whatever was read ends up in the contents, in order. */
    method ReadFd(read: Read) returns (n: int, savedErrno: int)
      requires Valid() && (read.Got? ==> |read.bytes| <= ReadLimit())
      modifies this, buffer
      ensures Valid() && (buffer == old(buffer) || fresh(buffer))
      ensures read.Failed? ==> n < 0 && savedErrno == read.errno && Contents() == old(Contents())
      ensures read.Got? ==> n == |read.bytes| && Contents() == old(Contents()) + read.bytes
      ensures old(writerIndex) >= CHEAP_PREPEND ==> Reserve() == old(Reserve())
    {
      var writable := WritableBytes();
      n, savedErrno := -1, 0;
      match read
      case Failed(errno) => savedErrno := errno;
      case Got(bytes) =>
        n := |bytes|;
        var split := Min(n, writable);
        var extrabuf := bytes[split..];
        WriteBehind(bytes[..split]);
        assert (old(Contents()) + bytes[..split]) + extrabuf == old(Contents()) + bytes;
        if n <= writable {
          HasWritten(n);
        } else {
          writerIndex := buffer.Length;
          Append(extrabuf);
        }
    }

    // Integers of 1, 2, 4 or 8 bytes, in network order.

    method AppendInt(x: int, width: nat)
      requires Valid()
      modifies this, buffer
      ensures Valid() && (buffer == old(buffer) || fresh(buffer))
      ensures Contents() == old(Contents()) + BigEndian(x, width)
    {
      Append(BigEndian(x, width));
    }

    method PrependInt(x: int, width: nat)
      requires Valid() && width <= PrependableBytes()
      modifies this`readerIndex, buffer
      ensures Valid() && Contents() == BigEndian(x, width) + old(Contents())
    {
      Prepend(BigEndian(x, width));
    }

    function PeekInt(width: nat): int
      requires Valid() && width <= ReadableBytes()
      reads this, buffer
    {
      Signed(buffer[readerIndex..readerIndex + width])
    }

    /** Reads back whatever integer of that width was appended or prepended there. */
    method ReadInt(width: nat) returns (x: int)
      requires Valid() && width <= ReadableBytes()
      modifies this`readerIndex, this`writerIndex
      ensures Valid() && Fits(x, width) && old(Contents()) == BigEndian(x, width) + Contents()
      ensures forall y, rest ::
                Fits(y, width) && old(Contents()) == BigEndian(y, width) + rest ==> x == y && Contents() == rest
    {
      x := PeekInt(width);
      ghost var head := buffer[readerIndex..readerIndex + width];
      BigEndianOfSigned(head);
      Slices(buffer[..], readerIndex, readerIndex + width, writerIndex);
      Retrieve(width);
      assert old(Contents()) == head + Contents();
      forall y, rest | Fits(y, width) && old(Contents()) == BigEndian(y, width) + rest
        ensures x == y && Contents() == rest
      {
        OneReading(head, Contents(), y, width, rest);
      }
    }

    /** `peekInt32_FromReserve`: the length kept at the very front of the array. */
    function PeekInt32FromReserve(): (x: int)
      requires Valid()
      reads this, buffer
      ensures x == Signed(Reserve()[..4])
    {
      assert buffer[..4] == buffer[..CHEAP_PREPEND][..4];
      Signed(buffer[..4])
    }
  }

  /** Bytes that begin with an integer of a width can be read as nothing else. */
  lemma OneReading(head: seq<byte>, tail: seq<byte>, y: int, width: nat, rest: seq<byte>)
    requires |head| == width && Fits(y, width) && head + tail == BigEndian(y, width) + rest
    ensures Signed(head) == y && tail == rest
  {
    assert head == (head + tail)[..width] == BigEndian(y, width);
    assert tail == (head + tail)[width..] == rest;
    SignedOfBigEndian(y, width);
  }

  lemma Slices(s: seq<byte>, a: nat, b: nat, c: nat)
    requires a <= b <= c <= |s|
    ensures s[a..c] == s[a..b] + s[b..c]
  {
  }

}
