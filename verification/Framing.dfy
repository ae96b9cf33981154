/** What `CFrameTransport` makes of the bytes of a connection: frames of a four-byte length and
    a body, delivered one by one. The functions say it of values; `FrameTransport` does it on
    its buffer. */
module Framing {
  import opened NetworkOrder
  import opened ByteBuffer

  const HEADER_SIZE: nat := 4
  const INVALID_SOCKET: int := -1

  /** Between frames, or inside the body of one whose header says `want`; `header` is what lies
      in the first four bytes of the buffer's reserve. */
  datatype View =
    | BetweenFrames(header: seq<byte>)
    | InBody(header: seq<byte>, want: int, body: seq<byte>)

  datatype Outcome = Nothing | Close | Deliver(message: seq<byte>)

  /** What `recv` is asked for. */
  function Wanted(v: View): int { if v.BetweenFrames? then HEADER_SIZE else v.want - |v.body| }

  /** One readable event of the socket. A header read short is completed by whatever the
      reserve held before. */
  function Step(v: View, read: Read): (View, Outcome) {
    if read.Failed? || read.bytes == [] then (v, Close)
    else match v
      case BetweenFrames(header) =>
        var header' := read.bytes + (if |read.bytes| <= |header| then header[|read.bytes|..] else []);
        var want := Signed(header');
        if want <= 0 then (BetweenFrames(header'), Close) else (InBody(header', want, []), Nothing)
      case InBody(header, want, body) =>
        if |body + read.bytes| < want then (InBody(header, want, body + read.bytes), Nothing)
        else (BetweenFrames(header), Deliver(body + read.bytes))
  }

  // ---------------------------------------------------------------------------
  // Whole streams
  // ---------------------------------------------------------------------------

  function End(v: View, input: seq<Read>): View
    decreases |input|
  {
    if input == [] then v else End(Step(v, input[0]).0, input[1..])
  }

  function Outcomes(v: View, input: seq<Read>): seq<Outcome>
    decreases |input|
  {
    if input == [] then [] else [Step(v, input[0]).1] + Outcomes(Step(v, input[0]).0, input[1..])
  }

  /** The messages among the outcomes, in order. */
  function Messages(outcomes: seq<Outcome>): seq<seq<byte>> {
    if outcomes == [] then []
    else (if outcomes[0].Deliver? then [outcomes[0].message] else []) + Messages(outcomes[1..])
  }

  /** No `recv` returns more than it was asked for. */
  predicate Legal(v: View, input: seq<Read>)
    decreases |input|
  {
    input == [] ||
    ((input[0].Got? ==> |input[0].bytes| <= Wanted(v)) && Legal(Step(v, input[0]).0, input[1..]))
  }

  function Concat(fragments: seq<seq<byte>>): seq<byte> {
    if fragments == [] then [] else fragments[0] + Concat(fragments[1..])
  }

  /** A payload as it arrives: in any number of non-empty fragments. */
  predicate Fragmented(fragments: seq<seq<byte>>) {
    fragments != [] && NonEmpty(fragments) && |Concat(fragments)| < 0x8000_0000
  }

  function BodyReads(fragments: seq<seq<byte>>): (input: seq<Read>)
    ensures |input| == |fragments|
  {
    if fragments == [] then [] else [Got(fragments[0])] + BodyReads(fragments[1..])
  }

  /** The input of one frame: its header in one piece, then the fragments of its body. */
  function FrameReads(fragments: seq<seq<byte>>): seq<Read> {
    [Got(BigEndian(|Concat(fragments)|, HEADER_SIZE))] + BodyReads(fragments)
  }

  function StreamReads(payloads: seq<seq<seq<byte>>>): seq<Read> {
    if payloads == [] then [] else FrameReads(payloads[0]) + StreamReads(payloads[1..])
  }

  function Payloads(payloads: seq<seq<seq<byte>>>): seq<seq<byte>> {
    if payloads == [] then [] else [Concat(payloads[0])] + Payloads(payloads[1..])
  }

  // ---------------------------------------------------------------------------
  // Streams in pieces
  // ---------------------------------------------------------------------------

  lemma {:induction false} InPieces(v: View, first: seq<Read>, rest: seq<Read>)
    ensures End(v, first + rest) == End(End(v, first), rest)
    ensures Outcomes(v, first + rest) == Outcomes(v, first) + Outcomes(End(v, first), rest)
    ensures Legal(v, first + rest) <==> Legal(v, first) && Legal(End(v, first), rest)
    decreases |first|
  {
    if first == [] {
      assert first + rest == rest;
    } else {
      assert (first + rest)[0] == first[0] && (first + rest)[1..] == first[1..] + rest;
      InPieces(Step(v, first[0]).0, first[1..], rest);
    }
  }

  lemma {:induction false} MessagesInPieces(a: seq<Outcome>, b: seq<Outcome>)
    ensures Messages(a + b) == Messages(a) + Messages(b)
  {
    if a == [] {
      assert a + b == b;
    } else {
      assert (a + b)[0] == a[0] && (a + b)[1..] == a[1..] + b;
      MessagesInPieces(a[1..], b);
    }
  }

  predicate NonEmpty(fragments: seq<seq<byte>>) {
    forall k :: 0 <= k < |fragments| ==> fragments[k] != []
  }

  lemma OneRead(v: View, first: Read, rest: seq<Read>)
    ensures End(v, [first] + rest) == End(Step(v, first).0, rest)
    ensures Outcomes(v, [first] + rest) == [Step(v, first).1] + Outcomes(Step(v, first).0, rest)
    ensures Legal(v, [first] + rest) <==>
              (first.Got? ==> |first.bytes| <= Wanted(v)) && Legal(Step(v, first).0, rest)
  {
    assert ([first] + rest)[1..] == rest;
  }

  lemma OneOutcome(first: Outcome, rest: seq<Outcome>)
    ensures Messages([first] + rest) == (if first.Deliver? then [first.message] else []) + Messages(rest)
  {
    assert ([first] + rest)[1..] == rest;
  }

  /** A body, however it is cut up, delivers itself once and ends the frame. */
  lemma {:induction false} BodyDelivered(header: seq<byte>, want: int, body: seq<byte>, fragments: seq<seq<byte>>)
    requires fragments != [] && NonEmpty(fragments) && want == |body| + |Concat(fragments)|
    ensures var v, input := InBody(header, want, body), BodyReads(fragments);
            && Legal(v, input) && End(v, input) == BetweenFrames(header)
            && Messages(Outcomes(v, input)) == [body + Concat(fragments)] && Close !in Outcomes(v, input)
    decreases |fragments|
  {
    var v, f, rest := InBody(header, want, body), fragments[0], fragments[1..];
    OneRead(v, Got(f), BodyReads(rest));
    OneOutcome(Step(v, Got(f)).1, Outcomes(Step(v, Got(f)).0, BodyReads(rest)));
    assert body + Concat(fragments) == (body + f) + Concat(rest);
    if rest == [] {
      assert Messages(Outcomes(BetweenFrames(header), BodyReads(rest))) == [];
      assert body + f == body + Concat(fragments);
    } else {
      SomeBytes(rest);
      BodyDelivered(header, want, body + f, rest);
      assert Messages(Outcomes(v, BodyReads(fragments))) == [(body + f) + Concat(rest)];
    }
  }

  lemma {:induction false} SomeBytes(fragments: seq<seq<byte>>)
    requires fragments != [] && NonEmpty(fragments)
    ensures |Concat(fragments)| > 0
  {
    assert fragments[0] != [];
  }

  lemma FrameDelivered(header: seq<byte>, fragments: seq<seq<byte>>)
    requires |header| == HEADER_SIZE && Fragmented(fragments)
    ensures var v, input := BetweenFrames(header), FrameReads(fragments);
            && Legal(v, input) && End(v, input).BetweenFrames? && |End(v, input).header| == HEADER_SIZE
            && Messages(Outcomes(v, input)) == [Concat(fragments)] && Close !in Outcomes(v, input)
  {
    var n := |Concat(fragments)|;
    var bytes := BigEndian(n, HEADER_SIZE);
    SomeBytes(fragments);
    assert Pow256(HEADER_SIZE) == 0x1_0000_0000;
    SignedOfBigEndian(n, HEADER_SIZE);
    var v, next := BetweenFrames(header), InBody(bytes, n, []);
    assert bytes + header[HEADER_SIZE..] == bytes;
    assert Step(v, Got(bytes)) == (next, Nothing);
    OneRead(v, Got(bytes), BodyReads(fragments));
    OneOutcome(Nothing, Outcomes(next, BodyReads(fragments)));
    BodyDelivered(bytes, n, [], fragments);
    assert [] + Concat(fragments) == Concat(fragments);
  }

  /** Every list of non-empty payloads, however the bodies are fragmented, is delivered as just
      those messages, in order; no read asks for bytes of the next frame, the connection is
      never closed, and it ends between frames. */
  lemma {:induction false} StreamDelivered(header: seq<byte>, payloads: seq<seq<seq<byte>>>)
    requires |header| == HEADER_SIZE && forall p :: p in payloads ==> Fragmented(p)
    ensures var v, input := BetweenFrames(header), StreamReads(payloads);
            && Legal(v, input) && End(v, input).BetweenFrames?
            && Messages(Outcomes(v, input)) == Payloads(payloads) && Close !in Outcomes(v, input)
    decreases |payloads|
  {
    if payloads == [] {
    } else {
      var v := BetweenFrames(header);
      var first, rest := FrameReads(payloads[0]), StreamReads(payloads[1..]);
      assert payloads[0] in payloads;
      FrameDelivered(header, payloads[0]);
      StreamDelivered(End(v, first).header, payloads[1..]);
      InPieces(v, first, rest);
      MessagesInPieces(Outcomes(v, first), Outcomes(End(v, first), rest));
    }
  }

  /** A header read short is taken for the whole one exactly when the bytes that did not come
      are those the reserve already held. That is not enough to read on rightly: the bytes still
      to come are then taken for the body. */
  lemma ShortHeader(held: seq<byte>, header: seq<byte>, k: nat)
    requires |held| == |header| == HEADER_SIZE && 0 < k <= HEADER_SIZE
    ensures Step(BetweenFrames(held), Got(header[..k])) == Step(BetweenFrames(held), Got(header))
            <==> held[k..] == header[k..]
  {
    var read := header[..k] + held[k..];
    assert header == header[..k] + header[k..] && header + held[HEADER_SIZE..] == header;
    assert read[k..] == held[k..];
  }

  // ---------------------------------------------------------------------------
  // Any cutting of a stream
  // ---------------------------------------------------------------------------

  /** What is sent for a list of payloads. */
  function Wire(payloads: seq<seq<byte>>): seq<byte> {
    if payloads == [] then [] else BigEndian(|payloads[0]|, HEADER_SIZE) + payloads[0] + Wire(payloads[1..])
  }

  predicate Sendable(payloads: seq<seq<byte>>) {
    forall p :: p in payloads ==> 0 < |p| < 0x8000_0000
  }

  /** Reads that all bring something. */
  predicate AllGot(input: seq<Read>) {
    forall k :: 0 <= k < |input| ==> input[k].Got? && input[k].bytes != []
  }

  function BytesOf(input: seq<Read>): seq<byte> {
    if input == [] then [] else (if input[0].Got? then input[0].bytes else []) + BytesOf(input[1..])
  }

  /** Every read between frames brings a whole header. */
  predicate WholeHeaders(v: View, input: seq<Read>)
    decreases |input|
  {
    input == [] ||
    ((v.BetweenFrames? ==> input[0].Got? && |input[0].bytes| == HEADER_SIZE) && WholeHeaders(Step(v, input[0]).0, input[1..]))
  }

  /** The right messages, no closing, and ready for the next frame. */
  predicate Delivers(v: View, input: seq<Read>, messages: seq<seq<byte>>) {
    Messages(Outcomes(v, input)) == messages && Close !in Outcomes(v, input) && End(v, input).BetweenFrames?
  }

  /** How many reads found the transport between frames, and how much they brought. */
  function HeaderReads(v: View, input: seq<Read>): nat
    decreases |input|
  {
    if input == [] then 0 else (if v.BetweenFrames? then 1 else 0) + HeaderReads(Step(v, input[0]).0, input[1..])
  }

  function HeaderBytes(v: View, input: seq<Read>): nat
    decreases |input|
  {
    if input == [] then 0
    else (if v.BetweenFrames? && input[0].Got? then |input[0].bytes| else 0) + HeaderBytes(Step(v, input[0]).0, input[1..])
  }

  function TotalLength(messages: seq<seq<byte>>): nat {
    if messages == [] then 0 else |messages[0]| + TotalLength(messages[1..])
  }

  function Unfinished(v: View): nat { if v.InBody? then |v.body| else 0 }
  function Open(v: View): nat { if v.InBody? then 1 else 0 }

  lemma StepBalance(v: View, bytes: seq<byte>)
    requires bytes != [] && !Step(v, Got(bytes)).1.Close?
    ensures var (v', o) := Step(v, Got(bytes));
            && |bytes| + Unfinished(v) == (if v.BetweenFrames? then |bytes| else 0) + Unfinished(v') + (if o.Deliver? then |o.message| else 0)
            && (if v.BetweenFrames? then 1 else 0) + Open(v) == Open(v') + (if o.Deliver? then 1 else 0)
  {
  }

  /** Bytes in are header bytes and message bytes out, one message for each header. */
  lemma {:induction false} Balance(v: View, input: seq<Read>)
    requires AllGot(input) && Close !in Outcomes(v, input) && End(v, input).BetweenFrames?
    ensures |BytesOf(input)| + Unfinished(v) == HeaderBytes(v, input) + TotalLength(Messages(Outcomes(v, input)))
    ensures HeaderReads(v, input) + Open(v) == |Messages(Outcomes(v, input))|
    decreases |input|
  {
    if input == [] {
    } else {
      var (v', o) := Step(v, input[0]);
      assert o == Outcomes(v, input)[0] && Outcomes(v, input)[1..] == Outcomes(v', input[1..]);
      Balance(v', input[1..]);
      StepBalance(v, input[0].bytes);
      var messages := Messages(Outcomes(v', input[1..]));
      assert Outcomes(v, input) == [o] + Outcomes(v', input[1..]);
      OneOutcome(o, Outcomes(v', input[1..]));
      if o.Deliver? { OneMore(o.message, messages); } else { assert [] + messages == messages; }
    }
  }

  lemma OneMore(message: seq<byte>, messages: seq<seq<byte>>)
    ensures TotalLength([message] + messages) == |message| + TotalLength(messages)
  {
    assert ([message] + messages)[1..] == messages;
  }

  lemma {:induction false} HeadersAtMostFour(v: View, input: seq<Read>)
    requires AllGot(input) && Legal(v, input)
    ensures HeaderBytes(v, input) <= HEADER_SIZE * HeaderReads(v, input)
    ensures HeaderBytes(v, input) == HEADER_SIZE * HeaderReads(v, input) <==> WholeHeaders(v, input)
    decreases |input|
  {
    if input == [] {
    } else {
      HeadersAtMostFour(Step(v, input[0]).0, input[1..]);
    }
  }

  lemma {:induction false} WireLength(payloads: seq<seq<byte>>)
    ensures |Wire(payloads)| == HEADER_SIZE * |payloads| + TotalLength(payloads)
  {
    if payloads == [] {
    } else {
      WireLength(payloads[1..]);
    }
  }

  lemma Prefix(a: seq<byte>, b: seq<byte>, c: seq<byte>, d: seq<byte>)
    requires a + b == c + d && |a| <= |c|
    ensures a == c[..|a|] && b == c[|a|..] + d
  {
    assert a == (a + b)[..|a|] && b == (a + b)[|a|..];
  }

  lemma StepOnHeader(held: seq<byte>, n: nat)
    requires |held| == HEADER_SIZE && 0 < n < 0x8000_0000
    ensures var bytes := BigEndian(n, HEADER_SIZE); Step(BetweenFrames(held), Got(bytes)) == (InBody(bytes, n, []), Nothing)
  {
    var bytes := BigEndian(n, HEADER_SIZE);
    assert Pow256(HEADER_SIZE) == 0x1_0000_0000;
    SignedOfBigEndian(n, HEADER_SIZE);
    assert bytes + held[HEADER_SIZE..] == bytes;
  }

  lemma NextOnWire(header: seq<byte>, payload: seq<byte>, later: seq<byte>, bytes: seq<byte>, rest: seq<byte>)
    requires bytes + rest == header + payload + later && |bytes| == |header|
    ensures bytes == header && rest == payload + later
  {
    assert header + payload + later == header + (payload + later);
    Prefix(bytes, rest, header, payload + later);
  }

  /** A whole header that comes next is that of the next payload. */
  lemma ReadsHeader(held: seq<byte>, bytes: seq<byte>, rest: seq<byte>, payloads: seq<seq<byte>>)
    requires |held| == |bytes| == HEADER_SIZE && bytes + rest == Wire(payloads) && Sendable(payloads)
    ensures payloads != [] && Step(BetweenFrames(held), Got(bytes)) == (InBody(bytes, |payloads[0]|, []), Nothing)
    ensures rest == payloads[0] + Wire(payloads[1..])
  {
    assert payloads[0] in payloads;
    NextOnWire(BigEndian(|payloads[0]|, HEADER_SIZE), payloads[0], Wire(payloads[1..]), bytes, rest);
    StepOnHeader(held, |payloads[0]|);
  }

  lemma DeliversOn(v: View, first: Read, rest: seq<Read>, messages: seq<seq<byte>>)
    requires Delivers(Step(v, first).0, rest, messages) && !Step(v, first).1.Close?
    ensures var o := Step(v, first).1;
            Delivers(v, [first] + rest, (if o.Deliver? then [o.message] else []) + messages)
  {
    OneRead(v, first, rest);
    OneOutcome(Step(v, first).1, Outcomes(Step(v, first).0, rest));
  }

  /** What is missing of the body a transport is in. */
  predicate Misses(v: View, left: seq<byte>) {
    match v
    case BetweenFrames(header) => |header| == HEADER_SIZE && left == []
    case InBody(header, want, body) => |header| == HEADER_SIZE && want == |body| + |left| && left != []
  }

  /** A step inside a body. */
  lemma BodyStep(v: View, left: seq<byte>, bytes: seq<byte>, rest: seq<byte>, wire: seq<byte>)
    requires v.InBody? && Misses(v, left) && bytes != [] && |bytes| <= Wanted(v) && bytes + rest == left + wire
    ensures var (v', o) := Step(v, Got(bytes)); var left' := left[|bytes|..];
            && Misses(v', left') && rest == left' + wire
            && if left' == [] then v'.BetweenFrames? && o == Deliver(v.body + left)
               else v'.InBody? && v'.body + left' == v.body + left && o == Nothing
  {
    Prefix(bytes, rest, left, wire);
    if |bytes| == |left| { assert bytes == left; }
    assert (v.body + bytes) + left[|bytes|..] == v.body + left;
  }

  /** What is still to come, and that the headers in it come whole. */
  predicate Awaits(v: View, left: seq<byte>, payloads: seq<seq<byte>>, input: seq<Read>) {
    && AllGot(input) && Legal(v, input) && WholeHeaders(v, input) && Sendable(payloads) && Misses(v, left)
    && BytesOf(input) == left + Wire(payloads)
  }

  /** With whole headers the stream is delivered: from between frames, */
  lemma {:induction false} WholeHeadersDeliver(v: View, payloads: seq<seq<byte>>, input: seq<Read>)
    requires Awaits(v, [], payloads, input) && v.BetweenFrames?
    ensures Delivers(v, input, payloads)
    decreases |input|
  {
    assert [] + Wire(payloads) == Wire(payloads);
    if input == [] {
      WireLength(payloads);
    } else {
      var bytes, rest := input[0].bytes, input[1..];
      assert bytes + BytesOf(rest) == Wire(payloads) && input == [Got(bytes)] + rest;
      ReadsHeader(v.header, bytes, BytesOf(rest), payloads);
      BodyThenDeliver(InBody(bytes, |payloads[0]|, []), payloads[0], payloads[1..], rest);
      assert [[] + payloads[0]] + payloads[1..] == payloads by { assert [] + payloads[0] == payloads[0]; }
      DeliversOn(v, Got(bytes), rest, payloads);
      assert [] + payloads == payloads;
    }
  }

  /** and from inside a body. */
  lemma {:induction false} BodyThenDeliver(v: View, left: seq<byte>, payloads: seq<seq<byte>>, input: seq<Read>)
    requires Awaits(v, left, payloads, input) && v.InBody?
    ensures Delivers(v, input, [v.body + left] + payloads)
    decreases |input|
  {
    assert |BytesOf(input)| >= |left| > 0;
    var bytes, rest := input[0].bytes, input[1..];
    assert bytes + BytesOf(rest) == left + Wire(payloads) && input == [Got(bytes)] + rest;
    var v', left' := Step(v, Got(bytes)).0, left[|bytes|..];
    BodyStep(v, left, bytes, BytesOf(rest), Wire(payloads));
    if left' == [] {
      WholeHeadersDeliver(v', payloads, rest);
      DeliversOn(v, Got(bytes), rest, payloads);
    } else {
      BodyThenDeliver(v', left', payloads, rest);
      DeliversOn(v, Got(bytes), rest, [v.body + left] + payloads);
      assert [] + ([v.body + left] + payloads) == [v.body + left] + payloads;
    }
  }

  /** For every list of payloads and every way in which the reads cut up the bytes sent: the
      payloads are delivered, the connection is not closed and the transport is ready for the
      next frame exactly when every read between frames brings a whole header. */
  lemma DeliveredExactlyWithWholeHeaders(held: seq<byte>, payloads: seq<seq<byte>>, input: seq<Read>)
    requires |held| == HEADER_SIZE && Sendable(payloads)
    requires AllGot(input) && Legal(BetweenFrames(held), input) && BytesOf(input) == Wire(payloads)
    ensures Delivers(BetweenFrames(held), input, payloads) <==> WholeHeaders(BetweenFrames(held), input)
  {
    var v := BetweenFrames(held);
    HeadersAtMostFour(v, input);
    if WholeHeaders(v, input) {
      assert [] + Wire(payloads) == Wire(payloads);
      WholeHeadersDeliver(v, payloads, input);
    }
    if Delivers(v, input, payloads) {
      Balance(v, input);
      WireLength(payloads);
    }
  }

  lemma LengthThree()
    ensures BigEndian(3, HEADER_SIZE) == [0, 0, 0, 3] && Signed([0, 0, 0, 3]) == 3
  {
    assert BigEndian(0, 3) == BigEndian(0, 2) + [0] == BigEndian(0, 1) + [0] + [0] == [0] + [0] + [0];
    assert BigEndian(3, 4) == [0] + [0] + [0] + [3] == [0, 0, 0, 3];
    assert Pow256(4) == 0x1_0000_0000;
    SignedOfBigEndian(3, 4);
  }

  /** Even where the reserve holds the bytes that are missing: after a frame of length 3, another
      one whose header comes in two parts is delivered with the last header byte in front. */
  lemma EqualLengthIsNotEnough()
    ensures var v, input := BetweenFrames([0, 0, 0, 3]), [Got([0, 0, 0]), Got([3, 9, 9]), Got([9])];
            && AllGot(input) && Legal(v, input[..2]) && BytesOf(input) == Wire([[9, 9, 9]])
            && Messages(Outcomes(v, input[..2])) == [[3, 9, 9]]
  {
    LengthThree();
    var v := BetweenFrames([0, 0, 0, 3]);
    assert [0, 0, 0] + [0, 0, 0, 3][3..] == [0, 0, 0, 3];
    var v1 := InBody([0, 0, 0, 3], 3, []);
    assert Step(v, Got([0, 0, 0])) == (v1, Nothing);
    assert [] + [3, 9, 9] == [3, 9, 9];
    assert Step(v1, Got([3, 9, 9])) == (v, Deliver([3, 9, 9]));
    OneRead(v, Got([0, 0, 0]), [Got([3, 9, 9])]);
    OneRead(v1, Got([3, 9, 9]), []);
    OneOutcome(Nothing, Outcomes(v1, [Got([3, 9, 9])] + []));
    var input := [Got([0, 0, 0]), Got([3, 9, 9]), Got([9])];
    assert input[..2] == [Got([0, 0, 0])] + [Got([3, 9, 9])] && [Got([3, 9, 9])] + [] == [Got([3, 9, 9])];
    assert input[1..] == [Got([3, 9, 9]), Got([9])] && input[1..][1..] == [Got([9])] && input[1..][1..][1..] == [];
    assert BytesOf(input) == [0, 0, 0] + ([3, 9, 9] + ([9] + [])) == [0, 0, 0, 3] + [9, 9, 9] + [];
  }
}
