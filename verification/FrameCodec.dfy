/**
 The binary frames of the POSIX websocket (posixws/message.go): a version byte, an operation or
 status byte, the length of the ID in 16 bits, the ID and the payload.
 */
module FrameCodec {

  type Byte = b: int | 0 <= b < 256

  const VERSION: Byte := 1
  const HEADER_LEN := 4
  const ID_LIMIT := 0x1_0000
  const CODE_LIMIT := 0x1_0000_0000

  datatype Request = Request(operation: Byte, id: seq<Byte>, payload: seq<Byte>)

  datatype Parsed = Ok(request: Request) | TooShort(got: nat) | UnknownVersion(version: Byte)
                  | Truncated(need: nat, got: nat)

  /** binary.BigEndian.Uint16 */
  function Uint16(hi: Byte, lo: Byte): (n: nat)
    ensures n < ID_LIMIT
  {
    256 * hi + lo
  }

  function ParseBinaryRequest(data: seq<Byte>): (r: Parsed)
    ensures r.Ok? <==> |data| >= HEADER_LEN && data[0] == VERSION && |data| >= HEADER_LEN + Uint16(data[2], data[3])
    ensures r.Ok? ==> HEADER_LEN + |r.request.id| + |r.request.payload| == |data| && |r.request.id| < ID_LIMIT
  {
    if |data| < HEADER_LEN then TooShort(|data|)
    else if data[0] != VERSION then UnknownVersion(data[0])
    else
      var payloadStart := HEADER_LEN + Uint16(data[2], data[3]);
      if |data| < payloadStart then Truncated(payloadStart, |data|)
      else Ok(Request(data[1], data[HEADER_LEN..payloadStart], data[payloadStart..]))
  }

  /** The frame: the length field keeps only 16 bits of the length. */
  function Frame(id: seq<Byte>, status: Byte, payload: seq<Byte>): seq<Byte> {
    var n := |id| % ID_LIMIT;
    [VERSION, status, n / 256, n % 256] + id + payload
  }

  /** BuildBinaryResponse, which fills a buffer. */
  method BuildBinaryResponse(id: seq<Byte>, status: Byte, payload: seq<Byte>) returns (buf: array<Byte>)
    ensures fresh(buf) && buf[..] == Frame(id, status, payload)
  {
    buf := new Byte[HEADER_LEN + |id| + |payload|](_ => 0);
    buf[0] := VERSION;
    buf[1] := status;
    var n := |id| % ID_LIMIT;
    buf[2] := n / 256;
    buf[3] := n % 256;
    Copy(buf, HEADER_LEN, id);
    Copy(buf, HEADER_LEN + |id|, payload);
    assert buf[..] == Frame(id, status, payload);
  }

  /** copy(buf[at:], s) where there is room for all of s. */
  method Copy(buf: array<Byte>, at: nat, s: seq<Byte>)
    requires at + |s| <= buf.Length
    modifies buf
    ensures buf[at..at + |s|] == s
    ensures forall i :: (0 <= i < at || at + |s| <= i < buf.Length) ==> buf[i] == old(buf[i])
  {
    for k := 0 to |s|
      invariant forall i :: 0 <= i < k ==> buf[at + i] == s[i]
      invariant forall i :: (0 <= i < at || at + |s| <= i < buf.Length) ==> buf[i] == old(buf[i])
    {
      buf[at + k] := s[k];
    }
  }

  // ---------------------------------------------------------------------------------------
  // Round trips
  // ---------------------------------------------------------------------------------------

  /**
   A frame always parses; beyond 65535 bytes the ID loses its head to the length field and its tail to
   the payload.
   */
  lemma ParseOfFrame(id: seq<Byte>, status: Byte, payload: seq<Byte>)
    ensures var n := |id| % ID_LIMIT;
            ParseBinaryRequest(Frame(id, status, payload)) == Ok(Request(status, id[..n], id[n..] + payload))
  {
    var n, f := |id| % ID_LIMIT, Frame(id, status, payload);
    assert n / 256 < 256 && Uint16(f[2], f[3]) == n;
    assert f[HEADER_LEN..HEADER_LEN + n] == id[..n];
    assert f[HEADER_LEN + n..] == id[n..] + payload;
  }

  /** Building and parsing gives everything back exactly for IDs of up to 65535 bytes. */
  lemma RoundTrip(id: seq<Byte>, status: Byte, payload: seq<Byte>)
    ensures ParseBinaryRequest(Frame(id, status, payload)) == Ok(Request(status, id, payload)) <==> |id| < ID_LIMIT
  {
    ParseOfFrame(id, status, payload);
    var n := |id| % ID_LIMIT;
    if |id| < ID_LIMIT {
      assert id[..n] == id && id[n..] + payload == payload;
    } else {
      assert |id[..n]| < |id|;
    }
  }

  /** The bytes on the wire: version 1, the status, the length of the ID, high byte first, the ID and the payload. */
  lemma WireFormat(id: seq<Byte>, status: Byte, payload: seq<Byte>, hi: Byte, lo: Byte)
    requires |id| == 256 * hi + lo
    ensures Frame(id, status, payload) == [1, status, hi, lo] + id + payload
  {
  }

  lemma Uint16Digits(hi: Byte, lo: Byte)
    ensures var n := Uint16(hi, lo) % ID_LIMIT; n / 256 == hi && n % 256 == lo
  {
  }

  /** What was parsed is what would be built: parsing forgets nothing. */
  lemma FrameOfParsed(data: seq<Byte>)
    requires ParseBinaryRequest(data).Ok?
    ensures var r := ParseBinaryRequest(data).request; Frame(r.id, r.operation, r.payload) == data
  {
    var r := ParseBinaryRequest(data).request;
    assert |r.id| == Uint16(data[2], data[3]);
    Uint16Digits(data[2], data[3]);
    assert data[..HEADER_LEN] == [VERSION, r.operation, data[2], data[3]];
    assert data == data[..HEADER_LEN] + r.id + r.payload;
  }

  /** So the response to any accepted request, whatever its status and payload, parses back with that request's ID. */
  lemma ResponseToParsed(data: seq<Byte>, status: Byte, payload: seq<Byte>)
    requires ParseBinaryRequest(data).Ok?
    ensures var id := ParseBinaryRequest(data).request.id;
            ParseBinaryRequest(Frame(id, status, payload)) == Ok(Request(status, id, payload))
  {
    RoundTrip(ParseBinaryRequest(data).request.id, status, payload);
  }

  // ---------------------------------------------------------------------------------------
  // Error payloads
  // ---------------------------------------------------------------------------------------

  /** BuildBinaryErrorPayload: uint32(code) keeps the code modulo 2 to the 32nd. */
  function ErrorPayload(code: int, message: seq<Byte>): seq<Byte> {
    var c := code % CODE_LIMIT;
    [c / 0x100_0000, c / 0x1_0000 % 256, c / 256 % 256, c % 256] + message
  }

  function Uint32(b: seq<Byte>): nat
    requires |b| >= 4
  {
    var b0: int, b1: int, b2: int, b3: int := b[0], b[1], b[2], b[3];
    0x100_0000 * b0 + 0x1_0000 * b1 + 256 * b2 + b3
  }

  /** The four bytes of a code, the highest first. */
  lemma ErrorPayloadFormat(code: int, message: seq<Byte>, b0: Byte, b1: Byte, b2: Byte, b3: Byte)
    requires code == 0x100_0000 * b0 + 0x1_0000 * b1 + 256 * b2 + b3
    ensures ErrorPayload(code, message) == [b0, b1, b2, b3] + message
  {
    var c := code % CODE_LIMIT;
    assert c == code;
    assert c / 0x100_0000 == b0;
    assert c / 0x1_0000 == 256 * b0 + b1;
    assert c / 256 == 0x1_0000 * b0 + 256 * b1 + b2;
    TwoDigits(b0, b1);
    TwoDigits(256 * b0 + b1, b2);
    TwoDigits(0x1_0000 * b0 + 256 * b1 + b2, b3);
  }

  lemma TwoDigits(hi: nat, lo: Byte)
    ensures (256 * hi + lo) / 256 == hi && (256 * hi + lo) % 256 == lo
  {
  }

  /** The code read back is the code exactly if it fits 32 bits; the message always survives. */
  lemma ErrorPayloadRoundTrip(code: int, message: seq<Byte>)
    ensures |ErrorPayload(code, message)| >= 4 && ErrorPayload(code, message)[4..] == message
    ensures Uint32(ErrorPayload(code, message)) == code <==> 0 <= code < CODE_LIMIT
  {
    var c, p := code % CODE_LIMIT, ErrorPayload(code, message);
    assert c == 256 * (c / 256) + c % 256;
    assert c / 256 == 256 * (c / 0x1_0000) + c / 256 % 256;
    assert c / 0x1_0000 == 256 * (c / 0x100_0000) + c / 0x1_0000 % 256;
    assert Uint32(p) == c;
  }
}
