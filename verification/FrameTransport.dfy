/** `CFrameTransport`: reads the frames of one connection into its buffer, one readable event of
    the socket at a time, and has them picked up through `GetMsg`. */
module FrameTransport {
  import opened NetworkOrder
  import opened ByteBuffer
  import opened Framing

  datatype SocketState = RecvFraming | Recv | Send
  datatype AppState = AppInit | ReadFrameSize | ReadRequest

  class Transport {
    const inBuffer: Buffer
    var socket: int
    var readWant: int
    var sockState: SocketState
    var appState: AppState

    ghost predicate Valid()
      reads this, inBuffer, inBuffer.buffer
    {
      && inBuffer.Valid() && inBuffer.readerIndex == CHEAP_PREPEND
      && match sockState
         case RecvFraming => inBuffer.Contents() == []
         case Recv =>
           && 0 < readWant && |inBuffer.Contents()| < readWant && appState == ReadRequest
           && Signed(inBuffer.Reserve()[..HEADER_SIZE]) == readWant
         case Send => false
    }

    ghost function View(): View
      requires Valid()
      reads this, inBuffer, inBuffer.buffer
    {
      var header := inBuffer.Reserve()[..HEADER_SIZE];
      if sockState.RecvFraming? then BetweenFrames(header) else InBody(header, readWant, inBuffer.Contents())
    }

    /** The constructor leaves the read state of the application as it finds it. */
    constructor (found: AppState)
      ensures Valid() && fresh(inBuffer) && fresh(inBuffer.buffer) && socket == INVALID_SOCKET && View().BetweenFrames?
    {
      inBuffer := new Buffer(INITIAL_SIZE);
      socket, readWant, sockState, appState := INVALID_SOCKET, 0, RecvFraming, found;
    }

    /** The length comes from the reserve, where no move of the contents disturbs it. */
    method GetMsg() returns (message: seq<byte>)
      requires inBuffer.Valid() && 0 <= Signed(inBuffer.Reserve()[..HEADER_SIZE]) <= inBuffer.ReadableBytes()
      modifies inBuffer`readerIndex, inBuffer`writerIndex
      ensures inBuffer.Valid() && inBuffer.Reserve() == old(inBuffer.Reserve())
      ensures |message| == Signed(old(inBuffer.Reserve())[..HEADER_SIZE])
      ensures old(inBuffer.Contents()) == message + inBuffer.Contents()
      ensures inBuffer.Contents() == [] ==> inBuffer.readerIndex == CHEAP_PREPEND
    {
      var datalen := inBuffer.PeekInt32FromReserve();
      message := inBuffer.RetrieveAsString(datalen);
    }

    /** Reads the header into the reserve. The branch for a body that is already there is never
        taken: between frames the buffer is empty. */
    method ReadFraming(read: Read) returns (ok: bool)
      requires Valid() && sockState.RecvFraming? && (read.Got? ==> |read.bytes| <= HEADER_SIZE)
      modifies this`readWant, this`appState, inBuffer.buffer
      ensures inBuffer.Valid() && inBuffer.Contents() == [] && inBuffer.readerIndex == CHEAP_PREPEND
      ensures read.Failed? || read.bytes == [] ==> !ok && inBuffer.Reserve() == old(inBuffer.Reserve())
      ensures read.Got? && read.bytes != [] ==>
                && inBuffer.Reserve() == read.bytes + old(inBuffer.Reserve())[|read.bytes|..]
                && readWant == Signed(inBuffer.Reserve()[..HEADER_SIZE]) && (ok <==> readWant > 0)
      ensures appState == if ok then ReadFrameSize else old(appState)
    {
      ok := false;
      if read.Got? && read.bytes != [] {
        inBuffer.WriteReserve(read.bytes);
        readWant := inBuffer.PeekInt32FromReserve();
        if readWant > 0 {
          appState := ReadFrameSize;
          if inBuffer.ReadableBytes() >= readWant {
            assert false;
          }
          ok := true;
        }
      }
    }

    /** Reads more of the body; `done` when it is all there. */
    method ReadData(read: Read) returns (ok: bool, done: bool)
      requires Valid() && sockState.Recv? && (read.Got? ==> |read.bytes| <= readWant - inBuffer.ReadableBytes())
      modifies inBuffer, inBuffer.buffer
      ensures inBuffer.Valid() && (inBuffer.buffer == old(inBuffer.buffer) || fresh(inBuffer.buffer))
      ensures inBuffer.readerIndex == CHEAP_PREPEND && inBuffer.Reserve() == old(inBuffer.Reserve())
      ensures ok <==> read.Got? && read.bytes != []
      ensures inBuffer.Contents() == old(inBuffer.Contents()) + (if ok then read.bytes else [])
      ensures done <==> ok && |inBuffer.Contents()| == readWant
    {
      inBuffer.EnsureWritableBytes(readWant);
      ok, done := false, false;
      if read.Got? && read.bytes != [] {
        inBuffer.WriteBehind(read.bytes);
        inBuffer.HasWritten(|read.bytes|);
        ok, done := true, inBuffer.ReadableBytes() >= readWant;
      }
    }

    /** The event is of the connection this transport serves, or the first one it sees. */
    predicate Serves(cfd: int)
      reads this
    {
      socket == INVALID_SOCKET || appState == AppInit || socket == cfd
    }

    /** One readable event: exactly a step of the framing, on the buffer. The connection is closed
        exactly if it is another one's, if nothing could be read, or if the header now in the
        reserve holds no positive length; a body read never closes it. */
    method ReadSocket(cfd: int, read: Read) returns (out: Outcome)
      requires Valid() && (read.Got? ==> |read.bytes| <= Wanted(View()))
      modifies this, inBuffer, inBuffer.buffer
      ensures Valid() && (inBuffer.buffer == old(inBuffer.buffer) || fresh(inBuffer.buffer))
      ensures if !old(Serves(cfd)) then out == Close && View() == old(View())
              else socket == cfd && (View(), out) == Step(old(View()), read)
      ensures if out == Close then appState == old(appState) else socket == cfd && appState != AppInit
      ensures read.Failed? || read.bytes == [] ==> out == Close && View() == old(View())
      ensures old(Serves(cfd)) && read.Got? && read.bytes != [] && old(sockState).RecvFraming? ==>
                && inBuffer.Reserve() == read.bytes + old(inBuffer.Reserve())[|read.bytes|..] && inBuffer.Contents() == []
                && if Signed(inBuffer.Reserve()[..HEADER_SIZE]) <= 0 then out == Close && sockState.RecvFraming?
                   else out == Nothing && sockState.Recv? && readWant == Signed(inBuffer.Reserve()[..HEADER_SIZE])
      ensures old(Serves(cfd)) && read.Got? && read.bytes != [] && old(sockState).Recv? ==>
                var body := old(inBuffer.Contents()) + read.bytes;
                && inBuffer.Reserve() == old(inBuffer.Reserve())
                && if |body| < old(readWant) then out == Nothing && sockState.Recv? && inBuffer.Contents() == body && readWant == old(readWant)
                   else out == Deliver(body) && sockState.RecvFraming? && inBuffer.Contents() == []
    {
      if socket == INVALID_SOCKET || appState == AppInit {
        socket := cfd;
      } else if socket != cfd {
        return Close;
      }
      match sockState
      case RecvFraming =>
        var ok := ReadFraming(read);
        if ok {
          HeaderInReserve(read.bytes, old(inBuffer.Reserve()));
          out := RdTransition();
          assert inBuffer.Contents() == [];
        } else {
          if read.Got? && read.bytes != [] { HeaderInReserve(read.bytes, old(inBuffer.Reserve())); }
          out := Close;
        }
      case Recv =>
        var ok, done := ReadData(read);
        if !ok {
          assert inBuffer.Contents() == old(inBuffer.Contents());
          out := Close;
        } else if done {
          out := RdTransition();
        } else {
          out := Nothing;
        }
    }

    /** After the header: on to the body. After the body: hand it up, and on to the next frame. */
    method RdTransition() returns (out: Outcome)
      requires inBuffer.Valid() && inBuffer.readerIndex == CHEAP_PREPEND && (appState.ReadFrameSize? || appState.ReadRequest?)
      requires 0 < readWant == Signed(inBuffer.Reserve()[..HEADER_SIZE])
      requires appState.ReadFrameSize? ==> inBuffer.Contents() == []
      requires appState.ReadRequest? ==> |inBuffer.Contents()| == readWant
      modifies this`readWant, this`sockState, this`appState, inBuffer`readerIndex, inBuffer`writerIndex
      ensures Valid() && inBuffer.Reserve() == old(inBuffer.Reserve())
      ensures old(appState).ReadFrameSize? ==> out == Nothing && sockState.Recv? && readWant == old(readWant) && inBuffer.Contents() == []
      ensures old(appState).ReadRequest? ==> out == Deliver(old(inBuffer.Contents())) && sockState.RecvFraming?
      ensures appState == if old(appState).ReadFrameSize? then ReadRequest else ReadFrameSize
    {
      if appState.ReadFrameSize? {
        sockState, appState := Recv, ReadRequest;
        out := Nothing;
      } else {
        var message := GetMsg();
        assert message + inBuffer.Contents() == old(inBuffer.Contents()) && inBuffer.Contents() == [];
        out := Deliver(message);
        sockState, appState, readWant := RecvFraming, ReadFrameSize, 0;
      }
    }
  }

  /** The header a read leaves in the reserve. */
  lemma HeaderInReserve(bytes: seq<byte>, reserve: seq<byte>)
    requires |bytes| <= HEADER_SIZE && |reserve| == CHEAP_PREPEND
    ensures (bytes + reserve[|bytes|..])[..HEADER_SIZE] == bytes + reserve[..HEADER_SIZE][|bytes|..]
  {
  }
}
