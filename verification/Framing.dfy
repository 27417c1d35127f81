/** Wire framing: a length-prefixed message and the parser of a receive stream. */
module Framing {
  import opened Bytes

  datatype Message = KeepAlive | Dht(payload: seq<byte>) | Pex(payload: seq<byte>) | Standard(payload: seq<byte>)

  datatype FrameError = Protocol | MessageLimit(length: nat)

  const BUFFER_SIZE: nat := 1024 * 1024

  function Id(m: Message): byte
    requires !m.KeepAlive?
  {
    match m
    case Dht(_) => 0x64
    case Pex(_) => 0x14
    case Standard(_) => 19
  }

  /** `Message::to_bytes`: the length is cut to 32 bits. */
  function ToBytes(m: Message): seq<byte> {
    if m.KeepAlive? then [0, 0, 0, 0]
    else Be32((1 + |m.payload|) % U32) + [Id(m)] + m.payload
  }

  /** `Message::from_bytes`. */
  function FromBytes(id: byte, payload: seq<byte>): Option<Message> {
    if id == 0x14 then Some(Pex(payload))
    else if id == 0x64 then Some(Dht(payload))
    else if id == 19 then Some(Standard(payload))
    else None
  }

  /** What one call of the parser makes of the bytes still in the stream: a message and the rest. */
  function Parse(s: seq<byte>): Result<(Message, seq<byte>), FrameError> {
    if |s| < 4 then Err(Protocol)
    else
      var length := Value(s[..4]);
      if length == 0 then Ok((KeepAlive, s[4..]))
      else if length > BUFFER_SIZE then Err(MessageLimit(length))
      else if |s| < 4 + length then Err(Protocol)
      else
        match FromBytes(s[4], s[5..4 + length])
        case Some(m) => Ok((m, s[4 + length..]))
        case None => Err(Protocol)
  }

  /** The receiving half of a QUIC stream. */
  class RecvStream {
    var data: seq<byte>

    constructor (data: seq<byte>)
      ensures this.data == data
    {
      this.data := data;
    }

    method ReadExact(n: nat) returns (r: Option<seq<byte>>)
      modifies this
      ensures n <= |old(data)| ==> r == Some(old(data)[..n]) && data == old(data)[n..]
      ensures n > |old(data)| ==> r == None && data == []
    {
      if n <= |data| {
        r, data := Some(data[..n]), data[n..];
      } else {
        r, data := None, [];
      }
    }
  }

  /** `Connection::parse_incoming`. */
  method ParseIncoming(recv: RecvStream) returns (r: Result<Message, FrameError>)
    modifies recv
    ensures match Parse(old(recv.data))
            case Ok((m, rest)) => r == Ok(m) && recv.data == rest
            case Err(e) => r == Err(e)
  {
    ghost var s := recv.data;
    var header := recv.ReadExact(4);
    if header.None? { return Err(Protocol); }
    var length := Value(header.value);
    if length == 0 { return Ok(KeepAlive); }
    if length > BUFFER_SIZE { return Err(MessageLimit(length)); }
    var id := recv.ReadExact(1);
    if id.None? { return Err(Protocol); }
    var payload := recv.ReadExact(length - 1);
    if payload.None? { return Err(Protocol); }
    assert s[4..][0] == s[4] && s[4..][1..] == s[5..];
    assert s[5..][..length - 1] == s[5..4 + length] && s[5..][length - 1..] == s[4 + length..];
    match FromBytes(id.value[0], payload.value)
    case Some(m) => return Ok(m);
    case None => return Err(Protocol);
  }

  function FrameLength(m: Message): nat {
    if m.KeepAlive? then 0 else 1 + |m.payload|
  }

  lemma {:induction false} ZeroHeader(s: seq<byte>)
    requires |s| == 4
    ensures Value(s) == 0 <==> s == [0, 0, 0, 0]
  {
    assert [0, 0, 0, 0][1..] == [0, 0, 0] && [0, 0, 0][1..] == [0, 0] && [0, 0][1..] == [0] && [0][1..] == [];
    assert Value([0]) == 0 && Value([0, 0]) == 0 && Value([0, 0, 0]) == 0 && Value([0, 0, 0, 0]) == 0;
    LexIsNumeric(s, [0, 0, 0, 0]);
  }

  lemma {:induction false} HeaderOf(m: Message, rest: seq<byte>)
    requires !m.KeepAlive?
    ensures var s := ToBytes(m) + rest;
            |s| >= 5 + |m.payload| && s[4] == Id(m) && Value(s[..4]) == FrameLength(m) % U32
  {
    var s := ToBytes(m) + rest;
    assert s[..4] == Be32(FrameLength(m) % U32);
    Be32RoundTrip(FrameLength(m) % U32);
  }

  /** The layout of a frame: four zero bytes for a keep-alive; otherwise the length in 32 bits, the kind of message in
      byte 4 (the letter d for the DHT, 20 for peer exchange, 19 for the standard protocol), then the payload. And a
      frame of any other kind is refused. */
  lemma {:induction false} FrameLayout(m: Message)
    ensures var s := ToBytes(m);
            if m.KeepAlive? then s == [0, 0, 0, 0]
            else && |s| == 5 + |m.payload| && s[5..] == m.payload && Value(s[..4]) == (1 + |m.payload|) % U32
                 && s[4] == match m case Dht(_) => 'd' as int as byte case Pex(_) => 20 case Standard(_) => 19
  {
    if !m.KeepAlive? {
      assert ToBytes(m) + [] == ToBytes(m);
      HeaderOf(m, []);
      BodyOf(m, []);
      assert ToBytes(m)[5..5 + |m.payload|] == ToBytes(m)[5..];
    }
  }

  /** A frame is refused for nothing but too few bytes, a length over 1 MiB or a kind that is none of the three. */
  lemma {:induction false} ParseFailsIff(s: seq<byte>)
    ensures Parse(s).Err? <==>
            |s| < 4 ||
            (Value(s[..4]) > 0 &&
             (Value(s[..4]) > 1_048_576 || |s| < 4 + Value(s[..4]) || s[4] !in {'d' as int as byte, 20, 19}))
    ensures Parse(s).Err? && |s| >= 4 && Value(s[..4]) > 1_048_576 ==> Parse(s) == Err(MessageLimit(Value(s[..4])))
    ensures Parse(s).Err? && (|s| < 4 || Value(s[..4]) <= 1_048_576) ==> Parse(s) == Err(Protocol)
  {
  }

  lemma {:induction false} BodyOf(m: Message, rest: seq<byte>)
    requires !m.KeepAlive?
    ensures var s, n := ToBytes(m) + rest, |m.payload|;
            |s| >= 5 + n && s[5..5 + n] == m.payload && s[5 + n..] == rest
  {
  }

  /** One frame is read back, leaving what follows it, exactly when its length is at most 1 MiB. A longer frame is
      refused or, once its length no longer fits 32 bits, read as something else. */
  lemma {:induction false} FrameRoundTrip(m: Message, rest: seq<byte>)
    ensures Parse(ToBytes(m) + rest) == Ok((m, rest)) <==> FrameLength(m) <= BUFFER_SIZE
  {
    var s := ToBytes(m) + rest;
    if m.KeepAlive? {
      assert s[..4] == [0, 0, 0, 0] && s[4..] == rest;
      ZeroHeader([0, 0, 0, 0]);
    } else {
      HeaderOf(m, rest);
      if FrameLength(m) <= BUFFER_SIZE {
        BodyOf(m, rest);
        ParseBody(s, m, rest);
      } else {
        LongFrame(s, m);
      }
    }
  }

  lemma {:induction false} ParseBody(s: seq<byte>, m: Message, rest: seq<byte>)
    requires !m.KeepAlive? && FrameLength(m) <= BUFFER_SIZE && |s| >= 5 + |m.payload|
    requires Value(s[..4]) == FrameLength(m) && s[4] == Id(m)
    requires s[5..5 + |m.payload|] == m.payload && s[5 + |m.payload|..] == rest
    ensures Parse(s) == Ok((m, rest))
  {
  }

  /** A frame whose true length is over the limit never comes back as the message it was made from. */
  lemma {:induction false} LongFrame(s: seq<byte>, m: Message)
    requires !m.KeepAlive? && FrameLength(m) > BUFFER_SIZE && |s| >= 4 && Value(s[..4]) == FrameLength(m) % U32
    ensures Parse(s).Ok? ==> Parse(s).value.0 != m
  {
    var length := Value(s[..4]);
    if 0 < length <= BUFFER_SIZE && |s| >= 4 + length {
      assert |s[5..4 + length]| == length - 1 < |m.payload|;
    }
  }

  /** Whatever the parser accepts is the encoding of what it returned, followed by the rest. */
  lemma {:induction false} AcceptedFrameReencodes(s: seq<byte>)
    requires Parse(s).Ok?
    ensures s == ToBytes(Parse(s).value.0) + Parse(s).value.1
    ensures FrameLength(Parse(s).value.0) <= BUFFER_SIZE
  {
    var header := s[..4];
    var length := Value(header);
    Be32OfValue(header);
    if length == 0 {
      ZeroHeader(header);
    } else {
      Reassemble(s, Parse(s).value.0, length);
    }
  }

  lemma {:induction false} Reassemble(s: seq<byte>, m: Message, length: nat)
    requires 0 < length <= BUFFER_SIZE && |s| >= 4 + length && Be32(length) == s[..4]
    requires FromBytes(s[4], s[5..4 + length]) == Some(m)
    ensures s == ToBytes(m) + s[4 + length..]
  {
    var payload := s[5..4 + length];
    assert m.payload == payload && Id(m) == s[4] && 1 + |payload| == length;
    InThree(s, length);
  }

  lemma {:induction false} InThree(s: seq<byte>, length: nat)
    requires 0 < length && |s| >= 4 + length
    ensures s == s[..4] + [s[4]] + s[5..4 + length] + s[4 + length..]
  {
  }

  /** The messages a stream delivers before the first parse error. */
  function Delivered(s: seq<byte>): seq<Message>
    decreases |s|
  {
    match Parse(s)
    case Ok((m, rest)) => [m] + Delivered(rest)
    case Err(_) => []
  }

  function EncodeAll(ms: seq<Message>): seq<byte> {
    if ms == [] then [] else ToBytes(ms[0]) + EncodeAll(ms[1..])
  }

  lemma {:induction false} FrameIsDelivered(m: Message, rest: seq<byte>)
    requires FrameLength(m) <= BUFFER_SIZE
    ensures Delivered(ToBytes(m) + rest) == [m] + Delivered(rest)
  {
    FrameRoundTrip(m, rest);
    DeliveredStep(ToBytes(m) + rest, m, rest);
  }

  lemma {:induction false} DeliveredStep(s: seq<byte>, m: Message, rest: seq<byte>)
    requires Parse(s) == Ok((m, rest))
    ensures Delivered(s) == [m] + Delivered(rest)
  {
  }

  lemma {:induction false} EncodeFirst(ms: seq<Message>, rest: seq<byte>)
    requires ms != []
    ensures EncodeAll(ms) + rest == ToBytes(ms[0]) + (EncodeAll(ms[1..]) + rest)
  {
  }

  lemma {:induction false} Regroup(ms: seq<Message>, ns: seq<Message>)
    requires ms != []
    ensures [ms[0]] + (ms[1..] + ns) == ms + ns
  {
  }

  /** A stream of encoded messages is delivered as that sequence, and then parsing goes on with the rest untouched. */
  lemma {:induction false} StreamRoundTrip(ms: seq<Message>, rest: seq<byte>)
    requires forall i :: 0 <= i < |ms| ==> FrameLength(ms[i]) <= BUFFER_SIZE
    ensures Delivered(EncodeAll(ms) + rest) == ms + Delivered(rest)
  {
    if ms == [] {
      assert EncodeAll(ms) + rest == rest;
    } else {
      var tail := EncodeAll(ms[1..]) + rest;
      StreamRoundTrip(ms[1..], rest);
      FrameIsDelivered(ms[0], tail);
      EncodeFirst(ms, rest);
      Regroup(ms, Delivered(rest));
    }
  }

  /** Framing is unambiguous: two message sequences within the limit that encode to the same bytes are the same. */
  lemma {:induction false} EncodingIsInjective(ms: seq<Message>, ns: seq<Message>)
    requires forall i :: 0 <= i < |ms| ==> FrameLength(ms[i]) <= BUFFER_SIZE
    requires forall i :: 0 <= i < |ns| ==> FrameLength(ns[i]) <= BUFFER_SIZE
    requires EncodeAll(ms) == EncodeAll(ns)
    ensures ms == ns
  {
    WholeStream(ms);
    WholeStream(ns);
  }

  lemma {:induction false} WholeStream(ms: seq<Message>)
    requires forall i :: 0 <= i < |ms| ==> FrameLength(ms[i]) <= BUFFER_SIZE
    ensures Delivered(EncodeAll(ms)) == ms
  {
    StreamRoundTrip(ms, []);
    assert EncodeAll(ms) + [] == EncodeAll(ms);
  }
}
