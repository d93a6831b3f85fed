/** The messages that server/Connections.cpp builds, and their form on the wire. */
module Messages {
  import opened PartialIo
  import opened Framing
  import opened Octets
  import opened Codec

  /** What follows the header of a message. */
  datatype Payload =
    | NoData
    | Account(uid: nat, color: nat)
    | User(uid: nat)
    | Users(uids: seq<nat>)
    | Said(uid: nat, text: seq<byte>)
    | Bytes(data: seq<byte>)

  datatype Message = Message(kind: byte, sub: byte, payload: Payload)

  /** The message of push_online. */
  function Presence(uid: nat, online: bool): Message {
    Message(0xA1, if online then 0x00 else 0x01, User(uid))
  }

  /** The two messages of push_userlist. */
  function UserList(uids: seq<nat>, online: bool): Message {
    Message(0xA1, if online then 0x00 else 0x01, Users(uids))
  }

  /** The message of push_shutdown. */
  const SHUTDOWN: Message := Message(0xA0, 0x00, NoData)

  /** The message of parse_unknown. */
  function Refusal(kind: byte): Message { Message(kind | 0x80, 0xFF, NoData) }

  /** The answer to a login. */
  function LoginReply(legal: bool, first: bool, again: bool, account: Payload): Message {
    if !legal then Message(0x90, 0xF0, NoData)
    else Message(0x90, if first then 0x01 else if again then 0x02 else 0x00, account)
  }

  /** The answer to a text. */
  function TextReply(sub: byte): Message { Message(0x93, sub, NoData) }

  /** The message of push_textmsg. */
  function TextFrom(src: nat, public: bool, text: seq<byte>): Message {
    Message(0xA3, if public then 0x01 else 0x00, Said(src, text))
  }

  /** send_header gives the connection up after the header of such a message. */
  predicate IsLast(m: Message) {
    m.kind == 0xA0 || m.sub == 0xFF || (m.kind == 0x90 && m.sub & 0xF0 != 0)
  }

  // ----- on the wire

  /** htonl; of a number of more than 32 bits the low ones. */
  function NetworkLong(n: nat): (b: seq<byte>)
    ensures |b| == 4
  {
    [Octet(n / 0x100_0000 % 0x100), Octet(n / 0x1_0000 % 0x100), Octet(n / 0x100 % 0x100), Octet(n % 0x100)]
  }

  /** ntohl of the first four bytes. */
  function HostLong(b: seq<byte>): nat
    requires |b| >= 4
  {
    (b[0] as int) * 0x100_0000 + (b[1] as int) * 0x1_0000 + (b[2] as int) * 0x100 + (b[3] as int)
  }

  /** Byte i on the wire is digit 3 - i to the base 256. */
  lemma LongDigits(n: nat)
    ensures var b := NetworkLong(n);
            && (b[0] as int) == n / 0x100_0000 % 0x100 && (b[1] as int) == n / 0x1_0000 % 0x100
            && (b[2] as int) == n / 0x100 % 0x100 && (b[3] as int) == n % 0x100
  {
    hide Octet;
    OctetBack(n / 0x100_0000 % 0x100);
    OctetBack(n / 0x1_0000 % 0x100);
    OctetBack(n / 0x100 % 0x100);
    OctetBack(n % 0x100);
  }

  lemma LongBack(n: nat, more: seq<byte>)
    ensures HostLong(NetworkLong(n) + more) == n % 0x1_0000_0000
  {
    hide Octet;
    var a, b, c, d := n / 0x100_0000 % 0x100, n / 0x1_0000 % 0x100, n / 0x100 % 0x100, n % 0x100;
    OctetBack(a);
    OctetBack(b);
    OctetBack(c);
    OctetBack(d);
    DivideTwice(n);
    DivideThrice(n);
    DivideFourTimes(n);
    LowLong(n / 0x1_0000_0000, a * 0x100_0000 + b * 0x1_0000 + c * 0x100 + d, n);
  }

  lemma LowLong(high: nat, low: nat, n: nat)
    requires n == high * 0x1_0000_0000 + low && low < 0x1_0000_0000
    ensures n % 0x1_0000_0000 == low
  {}

  function Longs(uids: seq<nat>): (b: seq<byte>)
    ensures |b| == 4 * |uids|
  {
    if uids == [] then [] else NetworkLong(uids[0]) + Longs(uids[1..])
  }

  function Data(p: Payload): seq<byte> {
    match p
    case NoData => []
    case Account(uid, color) => NetworkLong(uid) + NetworkLong(color)
    case User(uid) => NetworkLong(uid)
    case Users(uids) => Longs(uids)
    case Said(uid, text) => NetworkLong(uid) + text
    case Bytes(data) => data
  }

  /** The header has 16 bits for the length of the whole. */
  function FrameOf(m: Message): (f: Frame)
    ensures |f.head| == HEADER
  {
    var data := Data(m.payload);
    var length := (HEADER + |data|) % 0x1_0000;
    Frame([m.kind, m.sub, Octet(length / 0x100), Octet(length % 0x100)], data)
  }

  function Frames(ms: seq<Message>): (fs: seq<Frame>)
    ensures |fs| == |ms| && forall i :: 0 <= i < |ms| ==> fs[i] == FrameOf(ms[i])
    ensures forall f :: f in fs ==> |f.head| == HEADER
  {
    seq(|ms|, i requires 0 <= i < |ms| => FrameOf(ms[i]))
  }

  predicate TooLong(m: Message) {
    HEADER + |Data(m.payload)| > 0xFFFF
  }

  lemma HeaderIs(m: Message)
    ensures LengthOf(FrameOf(m).head) == (HEADER + |Data(m.payload)|) % 0x1_0000
    ensures IsLastHeader(FrameOf(m).head) <==> IsLast(m)
  {
    hide Octet, Data;
    var length := (HEADER + |Data(m.payload)|) % 0x1_0000;
    OctetBack(length / 0x100);
    OctetBack(length % 0x100);
  }

  /** A message is as long as its header says, as send_data asserts, unless it is too long for that. */
  lemma FormedUnlessTooLong(m: Message)
    ensures Formed(FrameOf(m)) <==> !TooLong(m)
  {
    hide LengthOf, Data, Octet;
    HeaderIs(m);
  }

  /** A list of users is too long from 16383 of them on. */
  lemma LongLists(uids: seq<nat>, online: bool)
    ensures TooLong(UserList(uids, online)) <==> |uids| > 16382
  {}
}
