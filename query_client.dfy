/**
 * The query client: `Query::new`, `Query::send` and `Query::recv`. The UDP
 * socket is a queue of what the server will answer and a log of what was
 * sent; the host-name lookup arrives as a parameter, and so does the
 * transcoder the decoders apply to strings.
 */
module QueryClient {
  import opened Wrappers
  import opened Bytes
  import opened Packets
  import opened Decoders
  import opened Address

  // ------------------------------------------------------------- the socket

  /** What one `recv` on the connected socket yields within the two-second deadline. */
  datatype Incoming =
    | Datagram(data: Bytes)
    | Silence             // nothing arrived before the deadline
    | Failed(message: string)  // the socket reported an error

  /** The next arrival, or silence once the server has nothing more to say. */
  function Next(inbox: seq<Incoming>): Incoming {
    if inbox == [] then Silence else inbox[0]
  }

  function Later(inbox: seq<Incoming>): seq<Incoming> {
    if inbox == [] then [] else inbox[1..]
  }

  class Socket {
    /** Every datagram sent so far, oldest first. */
    var sent: seq<Bytes>
    /** What the server will answer to the coming `recv` calls, in order. */
    var inbox: seq<Incoming>

    constructor (inbox: seq<Incoming>)
      ensures sent == [] && this.inbox == inbox
    {
      sent := [];
      this.inbox := inbox;
    }

    method Send(packet: Bytes)
      modifies this
      ensures sent == old(sent) + [packet] && inbox == old(inbox)
    {
      sent := sent + [packet];
    }

    method Receive() returns (m: Incoming)
      modifies this
      ensures m == Next(old(inbox)) && inbox == Later(old(inbox)) && sent == old(sent)
    {
      m := Next(inbox);
      inbox := Later(inbox);
    }
  }

  // ---------------------------------------------------------------- requests

  /** "SAMP", the magic every request starts with. */
  const MAGIC: Bytes := [0x53, 0x41, 0x4D, 0x50]

  /** The byte `query_type as u8` keeps of an opcode. */
  function OpcodeByte(opcode: char): (b: byte)
    ensures opcode as int < 0x100 ==> b == opcode as int
    ensures (opcode as int - b) % 0x100 == 0
  {
    opcode as int % 0x100
  }

  /**
   * The request `Query::send` writes: magic, address octets, the port's low
   * and high byte, the opcode, and four zero bytes after a ping opcode. The
   * port bytes are `port & 0xFF` and `(port >> 8) & 0xFF` of an i32, which
   * for every i32, negative ones included, are the floor-division digits
   * written below.
   */
  function RequestPacket(address: Octets, port: int, opcode: char): (b: Bytes)
    ensures |b| == if opcode == 'p' then 15 else 11
  {
    MAGIC + address + [port % 0x100, (port / 0x100) % 0x100, OpcodeByte(opcode)]
    + (if opcode == 'p' then [0, 0, 0, 0] else [])
  }

  /** A request as the server side reads it. */
  datatype Request = Request(address: Octets, port: nat, opcode: byte)

  /** The server side's reading of a request, the reference the encoder is checked against. */
  function ParseRequest(b: Bytes): (r: Option<Request>)
    ensures r.Some? ==> r.value.port < U16_LIMIT
  {
    if (|b| == 11 || |b| == 15) && b[..4] == MAGIC && (|b| == 15 <==> b[10] == 0x70)
       && (|b| == 15 ==> b[11..] == [0, 0, 0, 0])
    then Some(Request(b[4..8], b[8] as int + 0x100 * b[9] as int, b[10]))
    else None
  }

  /** Each request reads back as its address, its port modulo 2^16 and its opcode. */
  lemma RequestRoundTrip(address: Octets, port: int, opcode: char)
    requires opcode as int < 0x80
    ensures ParseRequest(RequestPacket(address, port, opcode))
            == Some(Request(address, port % U16_LIMIT, opcode as int))
  {
    var b := RequestPacket(address, port, opcode);
    assert b[..4] == MAGIC;
    assert b[4..8] == address;
    assert b[8] == port % 0x100 && b[9] == (port / 0x100) % 0x100 && b[10] == opcode as int;
    PortBytes(port);
    if opcode == 'p' {
      assert b[11..] == [0, 0, 0, 0];
    }
  }

  /** The two port bytes, low one first, make up the port modulo 2^16. */
  lemma PortBytes(port: int)
    ensures port % 0x100 + 0x100 * ((port / 0x100) % 0x100) == port % U16_LIMIT
  {
    var q := port / 0x100;
    var low := port % 0x100 + 0x100 * (q % 0x100);
    assert 0 <= low < U16_LIMIT;
    assert port == U16_LIMIT * (q / 0x100) + low;
  }

  // ----------------------------------------------------------------- replies

  /** What a decoder produced, in place of the JSON text the client hands on. */
  datatype Payload =
    | InfoData(info: InfoPacket)
    | PlayersData(players: seq<Player>)
    | RulesData(rules: seq<Rule>)
    | ExtraInfoData(extraInfo: ExtraInfoPacket)
    | Pong

  /** The outcome of one `recv`: a payload, an error, or a panic that ends the command. */
  datatype Reply = Answer(payload: Payload) | Error(message: string) | Panic

  const BUFFER_SIZE: nat := 1500
  const TIMED_OUT := "timed out"
  const NO_DATA := "no_data"

  const TAG_INFO: byte := 0x69     // 'i'
  const TAG_PLAYERS: byte := 0x63  // 'c'
  const TAG_RULES: byte := 0x72    // 'r'
  const TAG_EXTRA: byte := 0x6F    // 'o'
  const TAG_PING: byte := 0x70     // 'p'

  /** The tag that selects the decoder of each kind of payload. */
  function TagOf(p: Payload): byte {
    match p
    case InfoData(_) => TAG_INFO
    case PlayersData(_) => TAG_PLAYERS
    case RulesData(_) => TAG_RULES
    case ExtraInfoData(_) => TAG_EXTRA
    case Pong => TAG_PING
  }

  /** The decoder a tag selects, run on the payload; a decoder that runs out of bytes panics. */
  function Dispatch(tag: byte, payload: Bytes, dec: Transcoder): (r: Reply)
    ensures r.Error? <==> tag !in {TAG_INFO, TAG_PLAYERS, TAG_RULES, TAG_EXTRA, TAG_PING}
    ensures r.Error? ==> r.message == NO_DATA
    ensures r.Answer? ==> TagOf(r.payload) == tag
    ensures r.Panic? ==> tag != TAG_PING
  {
    if tag == TAG_INFO then
      match ParseInfo(payload, dec) case Some(p) => Answer(InfoData(p)) case None => Panic
    else if tag == TAG_PLAYERS then
      match ParsePlayers(payload, dec) case Some(p) => Answer(PlayersData(p)) case None => Panic
    else if tag == TAG_RULES then
      match ParseRules(payload, dec) case Some(p) => Answer(RulesData(p)) case None => Panic
    else if tag == TAG_EXTRA then
      match ParseExtraInfo(payload, dec) case Some(p) => Answer(ExtraInfoData(p)) case None => Panic
    else if tag == TAG_PING then Answer(Pong)
    else Error(NO_DATA)
  }

  /**
   * `recv`, as it behaves on Unix: at most 1500 bytes of a datagram are kept; none at all is
   * `no_data`; fewer than 11 makes the payload slice `11..amt` panic; the
   * byte at offset 10 is the tag and the bytes after it are the payload.
   */
  function Classify(m: Incoming, dec: Transcoder): (r: Reply)
    ensures !m.Datagram? ==> r.Error?
    ensures r.Panic? ==> m.Datagram? && 0 < |m.data|
    ensures r.Answer? ==> m.Datagram? && 11 <= |m.data| && TagOf(r.payload) == m.data[10]
  {
    match m
    case Silence => Error(TIMED_OUT)
    case Failed(message) => Error(message)
    case Datagram(d) =>
      var amt := if |d| < BUFFER_SIZE then |d| else BUFFER_SIZE;
      if amt == 0 then Error(NO_DATA)
      else if amt < 11 then Panic
      else Dispatch(d[10], d[11..amt], dec)
  }

  /** Bytes past the first 1500 of a datagram play no part. */
  lemma ClassifyTruncates(d: Bytes, dec: Transcoder)
    requires |d| > BUFFER_SIZE
    ensures Classify(Datagram(d), dec) == Classify(Datagram(d[..BUFFER_SIZE]), dec)
  {
    assert d[..BUFFER_SIZE][11..BUFFER_SIZE] == d[11..BUFFER_SIZE];
  }

  /**
   * How a datagram is classified, by length and tag: empty is `no_data`,
   * shorter than 11 bytes panics, a ping tag is a pong whatever follows,
   * and a tag outside i, c, r, o, p is `no_data`.
   */
  lemma ClassifyByTag(d: Bytes, dec: Transcoder)
    ensures Classify(Datagram(d), dec) == Error(NO_DATA)
            <==> |d| == 0 || (11 <= |d| && d[10] !in {TAG_INFO, TAG_PLAYERS, TAG_RULES, TAG_EXTRA, TAG_PING})
    ensures Classify(Datagram(d), dec) == Answer(Pong) <==> 11 <= |d| && d[10] == TAG_PING
    ensures Classify(Datagram(d), dec) == Panic ==> 0 < |d|
  {
  }

  /** The reply a server sends: the 11 bytes of the request header echoed, then the payload. */
  function ReplyDatagram(request: Bytes, payload: Bytes): Bytes
    requires 11 <= |request|
  {
    request[..11] + payload
  }

  /** An info reply carrying an encoded info payload is decoded to the fields encoded. */
  lemma InfoReplyRoundTrip(address: Octets, port: int, w: InfoWire, dec: Transcoder)
    requires w.Valid() && 11 + |EncodeInfo(w)| <= BUFFER_SIZE
    ensures Classify(Datagram(ReplyDatagram(RequestPacket(address, port, 'i'), EncodeInfo(w))), dec)
            == Answer(InfoData(InfoOf(w, dec)))
  {
    var d := ReplyDatagram(RequestPacket(address, port, 'i'), EncodeInfo(w));
    assert d[10] == TAG_INFO;
    assert d[11..|d|] == EncodeInfo(w);
    InfoRoundTrip(w, [], dec);
    AppendEmpty(EncodeInfo(w));
  }

  /** A players reply carrying encoded entries is decoded to those players, in wire order. */
  lemma PlayersReplyRoundTrip(address: Octets, port: int, ws: seq<PlayerWire>, dec: Transcoder)
    requires |ws| < U16_LIMIT && (forall k :: 0 <= k < |ws| ==> ws[k].Valid())
    requires 11 + |EncodePlayers(ws)| <= BUFFER_SIZE
    ensures Classify(Datagram(ReplyDatagram(RequestPacket(address, port, 'c'), EncodePlayers(ws))), dec)
            == Answer(PlayersData(PlayersOf(ws, dec)))
  {
    var d := ReplyDatagram(RequestPacket(address, port, 'c'), EncodePlayers(ws));
    assert d[10] == TAG_PLAYERS;
    assert d[11..|d|] == EncodePlayers(ws);
    PlayersRoundTrip(ws, [], dec);
    AppendEmpty(EncodePlayers(ws));
  }

  /** A rules reply carrying encoded entries is decoded to those rules, in wire order. */
  lemma RulesReplyRoundTrip(address: Octets, port: int, ws: seq<RuleWire>, dec: Transcoder)
    requires |ws| < U16_LIMIT && (forall k :: 0 <= k < |ws| ==> ws[k].Valid())
    requires 11 + |EncodeRules(ws)| <= BUFFER_SIZE
    ensures Classify(Datagram(ReplyDatagram(RequestPacket(address, port, 'r'), EncodeRules(ws))), dec)
            == Answer(RulesData(RulesOf(ws, dec)))
  {
    var d := ReplyDatagram(RequestPacket(address, port, 'r'), EncodeRules(ws));
    assert d[10] == TAG_RULES;
    assert d[11..|d|] == EncodeRules(ws);
    RulesRoundTrip(ws, [], dec);
    AppendEmpty(EncodeRules(ws));
  }

  /** An extra-info reply carrying an encoded payload is decoded to its texts, an absent logo as "". */
  lemma ExtraInfoReplyRoundTrip(address: Octets, port: int, w: ExtraInfoWire, dec: Transcoder)
    requires w.Valid() && 11 + |EncodeExtraInfo(w)| <= BUFFER_SIZE
    ensures Classify(Datagram(ReplyDatagram(RequestPacket(address, port, 'o'), EncodeExtraInfo(w))), dec)
            == Answer(ExtraInfoData(ExtraInfoOf(w, dec)))
  {
    var e := EncodeExtraInfo(w);
    assert e[..|e|] == e;
    ReplyCut(RequestPacket(address, port, 'o'), e, |e|, dec);
    ExtraInfoRoundTrip(w, [], dec);
    AppendEmpty(e);
  }

  /** How many payload bytes `recv` keeps of a reply whose payload is `k` bytes long. */
  function Kept(k: nat): (j: nat)
    ensures j <= k && 11 + j <= BUFFER_SIZE
    ensures 11 + k <= BUFFER_SIZE ==> j == k
  {
    if 11 + k < BUFFER_SIZE then k else BUFFER_SIZE - 11
  }

  /** A reply whose payload is cut to `k` bytes is decoded from the part of that cut `recv` keeps. */
  lemma ReplyCut(request: Bytes, e: Bytes, k: nat, dec: Transcoder)
    requires 11 <= |request| && k <= |e|
    ensures Classify(Datagram(ReplyDatagram(request, e[..k])), dec) == Dispatch(request[10], e[..Kept(k)], dec)
  {
    var d := ReplyDatagram(request, e[..k]);
    var amt := if |d| < BUFFER_SIZE then |d| else BUFFER_SIZE;
    assert amt == 11 + Kept(k);
    assert d[10] == request[10];
    assert d[11..amt] == e[..Kept(k)];
  }

  /** An info reply cut anywhere inside its payload panics the decoder. */
  lemma InfoReplyTruncatedPanics(address: Octets, port: int, w: InfoWire, k: nat, dec: Transcoder)
    requires w.Valid() && k < |EncodeInfo(w)|
    ensures Classify(Datagram(ReplyDatagram(RequestPacket(address, port, 'i'), EncodeInfo(w)[..k])), dec) == Panic
  {
    ReplyCut(RequestPacket(address, port, 'i'), EncodeInfo(w), k, dec);
    InfoTruncated(w, Kept(k), dec);
  }

  /** A players reply cut anywhere inside its payload panics the decoder. */
  lemma PlayersReplyTruncatedPanics(address: Octets, port: int, ws: seq<PlayerWire>, k: nat, dec: Transcoder)
    requires |ws| < U16_LIMIT && (forall i :: 0 <= i < |ws| ==> ws[i].Valid())
    requires k < |EncodePlayers(ws)|
    ensures Classify(Datagram(ReplyDatagram(RequestPacket(address, port, 'c'), EncodePlayers(ws)[..k])), dec) == Panic
  {
    ReplyCut(RequestPacket(address, port, 'c'), EncodePlayers(ws), k, dec);
    PlayersTruncated(ws, Kept(k), dec);
  }

  /** A rules reply cut anywhere inside its payload panics the decoder. */
  lemma RulesReplyTruncatedPanics(address: Octets, port: int, ws: seq<RuleWire>, k: nat, dec: Transcoder)
    requires |ws| < U16_LIMIT && (forall i :: 0 <= i < |ws| ==> ws[i].Valid())
    requires k < |EncodeRules(ws)|
    ensures Classify(Datagram(ReplyDatagram(RequestPacket(address, port, 'r'), EncodeRules(ws)[..k])), dec) == Panic
  {
    ReplyCut(RequestPacket(address, port, 'r'), EncodeRules(ws), k, dec);
    RulesTruncated(ws, Kept(k), dec);
  }

  /**
   * An extra-info reply cut inside its payload panics the decoder, save when
   * what `recv` keeps ends right after the three banner texts: that decodes
   * as the same texts with an empty logo.
   */
  lemma ExtraInfoReplyTruncated(address: Octets, port: int, w: ExtraInfoWire, k: nat, dec: Transcoder)
    requires w.Valid() && k < |EncodeExtraInfo(w)|
    ensures var texts := EncodeTexts([w.discord, w.light, w.dark]);
            Classify(Datagram(ReplyDatagram(RequestPacket(address, port, 'o'), EncodeExtraInfo(w)[..k])), dec)
            == if Kept(k) == |texts| then Answer(ExtraInfoData(ExtraInfoOf(w.(logo := None), dec))) else Panic
  {
    ReplyCut(RequestPacket(address, port, 'o'), EncodeExtraInfo(w), k, dec);
    ExtraInfoTruncated(w, Kept(k), dec);
  }

  // ------------------------------------------------------------------ Query

  class Query {
    const address: Octets
    const port: int
    const socket: Socket

    constructor (address: Octets, port: int, socket: Socket)
      ensures this.address == address && this.port == port && this.socket == socket
    {
      this.address := address;
      this.port := port;
      this.socket := socket;
    }

    /** `Query::send`: builds the request byte by byte and sends it. */
    method Send(opcode: char) returns (amt: nat)
      modifies socket
      ensures socket.sent == old(socket.sent) + [RequestPacket(address, port, opcode)]
      ensures socket.inbox == old(socket.inbox)
      ensures amt == |RequestPacket(address, port, opcode)|
    {
      var packet: Bytes := MAGIC;
      for i := 0 to 4
        invariant packet == MAGIC + address[..i]
      {
        packet := packet + [address[i]];
      }
      assert address[..4] == address;
      packet := packet + [port % 0x100];
      packet := packet + [(port / 0x100) % 0x100];
      packet := packet + [OpcodeByte(opcode)];
      if opcode == 'p' {
        packet := packet + [0];
        packet := packet + [0];
        packet := packet + [0];
        packet := packet + [0];
      }
      assert packet == RequestPacket(address, port, opcode);
      socket.Send(packet);
      amt := |packet|;
    }

    /**
     * `Query::recv`: waits for one datagram, copies it into a 1500-byte
     * buffer, and dispatches on its tag.
     */
    method Recv(dec: Transcoder) returns (r: Reply)
      modifies socket
      ensures r == Classify(Next(old(socket.inbox)), dec)
      ensures socket.inbox == Later(old(socket.inbox)) && socket.sent == old(socket.sent)
    {
      var m := socket.Receive();
      match m
      case Silence =>
        return Error(TIMED_OUT);
      case Failed(message) =>
        return Error(message);
      case Datagram(d) =>
        var buf, amt := ReceiveInto(d);
        if amt == 0 {
          return Error(NO_DATA);
        }
        var tag := buf[10];
        if amt < 11 {
          return Panic;
        }
        var payload := buf[11..amt];
        assert tag == buf[..amt][10] == d[10];
        assert payload == buf[..amt][11..] == d[..amt][11..] == d[11..amt];
        r := Decode(tag, payload, dec);
    }
  }

  /**
   * The datagram as the socket delivers it into a zeroed 1500-byte buffer:
   * as many of its bytes as fit, and their count.
   */
  method ReceiveInto(d: Bytes) returns (buf: array<byte>, amt: nat)
    ensures fresh(buf) && buf.Length == BUFFER_SIZE
    ensures amt == if |d| < BUFFER_SIZE then |d| else BUFFER_SIZE
    ensures buf[..amt] == d[..amt]
  {
    buf := new byte[BUFFER_SIZE](_ => 0);
    amt := if |d| < BUFFER_SIZE then |d| else BUFFER_SIZE;
    for i := 0 to amt
      invariant buf[..i] == d[..i]
    {
      buf[i] := d[i];
      assert buf[..i + 1] == buf[..i] + [d[i]];
    }
  }

  /** The tag dispatch of `recv`, running the imperative decoders. */
  method Decode(tag: byte, payload: Bytes, dec: Transcoder) returns (r: Reply)
    ensures r == Dispatch(tag, payload, dec)
  {
    if tag == TAG_INFO {
      var p := BuildInfoPacket(payload, dec);
      r := if p.Some? then Answer(InfoData(p.value)) else Panic;
    } else if tag == TAG_PLAYERS {
      var p := BuildPlayersPacket(payload, dec);
      r := if p.Some? then Answer(PlayersData(p.value)) else Panic;
    } else if tag == TAG_RULES {
      var p := BuildRulesPacket(payload, dec);
      r := if p.Some? then Answer(RulesData(p.value)) else Panic;
    } else if tag == TAG_EXTRA {
      var p := BuildExtraInfoPacket(payload, dec);
      r := if p.Some? then Answer(ExtraInfoData(p.value)) else Panic;
    } else if tag == TAG_PING {
      r := Answer(Pong);
    } else {
      r := Error(NO_DATA);
    }
  }

  /**
   * `Query::new`: settles on the address text, parses it, and connects a
   * fresh socket. `lookup` is what resolving `addr:port` answers; it is
   * consulted only when `addr` fails the pattern check.
   */
  method Open(addr: string, port: int, lookup: Lookup, inbox: seq<Incoming>)
    returns (r: Result<Query, string>)
    ensures r.Success? <==> ResolveAddress(addr, lookup).Success?
    ensures r.Failure? ==> r.error == INVALID_ADDRESS
    ensures r.Success? ==> r.value.address == ResolveAddress(addr, lookup).value
                           && r.value.port == port && fresh(r.value.socket)
                           && r.value.socket.sent == [] && r.value.socket.inbox == inbox
  {
    var text: string;
    if IsDottedQuad(addr) {
      text := addr;
    } else {
      match lookup
      case Success(addrs) =>
        text := SelectIpv4(addrs);
      case Failure(_) =>
        text := "";
    }
    match ParseIpv4(text)
    case None =>
      return Failure(INVALID_ADDRESS);
    case Some(address) =>
      var socket := new Socket(inbox);
      var q := new Query(address, port, socket);
      return Success(q);
  }
}
