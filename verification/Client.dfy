/** How chat_client/TcpClient.cpp reads the messages of the server: the other end of every connection. */
module Client {
  import opened PartialIo
  import opened Framing
  import opened Octets
  import opened Messages

  const LONGS: nat := 0x1_0000_0000

  /** A number as a data stream reads it, high byte first. */
  function BigEndian(b: seq<byte>): nat {
    if b == [] then 0 else 0x100 * BigEndian(b[..|b| - 1]) + (b[|b| - 1] as int)
  }

  /** Numbers of four bytes until the data is at its end. */
  function Numbers(b: seq<byte>): seq<nat> {
    if |b| < 4 then [] else [BigEndian(b[..4])] + Numbers(b[4..])
  }

  /** What the client makes of a message.  Closing: it closes the connection. */
  datatype Signal =
    | LoginSuccess(uid: nat, theme: nat)
    | NeedChangePassword(uid: nat, theme: nat)
    | LogoutOthers(uid: nat, theme: nat)
    | LoginFailed
    | LogoutByOthers
    | CameOnline(uids: seq<nat>)
    | WentOffline(uids: seq<nat>)
    | UserName(name: seq<byte>)
    | History(records: seq<byte>)
    | TextSent
    | NoSuchUser
    | UserOffline
    | RecvText(group: bool, src: nat, text: seq<byte>)
    | PasswordChanged
    | PasswordRefused
    | File(kind: byte, sub: byte, data: seq<byte>)
    | Closing(kind: byte, sub: byte)
    | Ignored(kind: byte, sub: byte)

  /** parseHeader, on a message as long as its header says. */
  function Hear(f: Frame): Signal
    requires |f.head| == HEADER
  {
    var (kind, sub) := (f.head[0], f.head[1]);
    if kind == 0x90 then
      if sub == 0x00 && |f.body| == 8 then LoginSuccess(BigEndian(f.body[..4]), BigEndian(f.body[4..]))
      else if sub == 0x01 && |f.body| == 8 then NeedChangePassword(BigEndian(f.body[..4]), BigEndian(f.body[4..]))
      else if sub == 0x02 && |f.body| == 8 then LogoutOthers(BigEndian(f.body[..4]), BigEndian(f.body[4..]))
      else if sub == 0xF0 then LoginFailed
      else Closing(kind, sub)
    else if kind == 0xA0 then if sub == 0x00 then LogoutByOthers else Closing(kind, sub)
    else if kind == 0xA1 then
      if sub == 0x00 then CameOnline(Numbers(f.body))
      else if sub == 0x01 then WentOffline(Numbers(f.body))
      else Closing(kind, sub)
    else if kind == 0x91 then if sub == 0x00 then UserName(f.body) else Closing(kind, sub)
    else if kind == 0x92 then if sub == 0x00 then History(f.body) else Closing(kind, sub)
    else if kind == 0x93 then
      if sub == 0x00 then TextSent
      else if sub == 0xF0 then NoSuchUser
      else if sub == 0xF1 then UserOffline
      else Closing(kind, sub)
    else if kind == 0xA3 then
      if sub <= 0x01 && |f.body| >= 4 then RecvText(sub == 0x01, BigEndian(f.body[..4]), f.body[4..])
      else Closing(kind, sub)
    else if kind == 0x95 then
      if sub == 0x00 then PasswordChanged else if sub == 0xF0 then PasswordRefused else Closing(kind, sub)
    else if 0xA7 <= kind <= 0xAA then File(kind, sub, f.body)
    else Ignored(kind, sub)
  }

  /** A message of the server as the client hears it. */
  function Heard(m: Message): Signal { Hear(FrameOf(m)) }

  function AllHeard(ms: seq<Message>): (signals: seq<Signal>)
    ensures |signals| == |ms|
  {
    seq(|ms|, i requires 0 <= i < |ms| => Heard(ms[i]))
  }

  lemma HeardConcat(a: seq<Message>, b: seq<Message>)
    ensures AllHeard(a + b) == AllHeard(a) + AllHeard(b)
  {}

  // ----- numbers arrive as they were sent

  /** Users as the client numbers them. */
  function Longs32(uids: seq<nat>): seq<nat> {
    seq(|uids|, i requires 0 <= i < |uids| => uids[i] % LONGS)
  }

  lemma FourBytes(b: seq<byte>)
    requires |b| == 4
    ensures BigEndian(b) == HostLong(b)
  {
    var c := b[..3];
    assert c[..2] == b[..2] && b[..2][..1] == b[..1] && b[..1][..0] == [];
    assert BigEndian(b) == 0x100 * BigEndian(c) + (b[3] as int);
    assert BigEndian(c) == 0x100 * BigEndian(b[..2]) + (b[2] as int);
    assert BigEndian(b[..2]) == 0x100 * BigEndian(b[..1]) + (b[1] as int);
    assert BigEndian(b[..1]) == 0x100 * BigEndian([]) + (b[0] as int);
  }

  lemma LongArrives(n: nat, more: seq<byte>)
    ensures BigEndian((NetworkLong(n) + more)[..4]) == n % LONGS && (NetworkLong(n) + more)[4..] == more
  {
    hide NetworkLong, HostLong, BigEndian;
    var b := NetworkLong(n);
    assert (b + more)[..4] == b && b + [] == b;
    LongBack(n, []);
    FourBytes(b);
  }

  lemma {:induction false} NumbersArrive(uids: seq<nat>)
    ensures Numbers(Longs(uids)) == Longs32(uids)
  {
    hide NetworkLong, BigEndian;
    if uids != [] {
      LongArrives(uids[0], Longs(uids[1..]));
      NumbersArrive(uids[1..]);
      assert Longs32(uids) == [uids[0] % LONGS] + Longs32(uids[1..]);
    }
  }

  // ----- what the client hears of every message that the server builds

  lemma LoginHeard(first: bool, again: bool, uid: nat, color: nat)
    ensures Heard(LoginReply(true, first, again, Account(uid, color))) ==
            if first then NeedChangePassword(uid % LONGS, color % LONGS)
            else if again then LogoutOthers(uid % LONGS, color % LONGS)
            else LoginSuccess(uid % LONGS, color % LONGS)
    ensures Heard(LoginReply(false, first, again, Account(uid, color))) == LoginFailed
  {
    hide NetworkLong, BigEndian, Octet;
    LongArrives(uid, NetworkLong(color));
    LongArrives(color, []);
    assert NetworkLong(color) + [] == NetworkLong(color) && NetworkLong(color)[..4] == NetworkLong(color);
  }

  lemma PresenceHeard(uid: nat, online: bool)
    ensures Heard(Presence(uid, online)) == if online then CameOnline([uid % LONGS]) else WentOffline([uid % LONGS])
  {
    hide NetworkLong, BigEndian, Octet;
    NumbersArrive([uid]);
    assert Longs([uid]) == NetworkLong(uid) + [] == NetworkLong(uid);
  }

  lemma ListHeard(uids: seq<nat>, online: bool)
    ensures Heard(UserList(uids, online)) == if online then CameOnline(Longs32(uids)) else WentOffline(Longs32(uids))
  {
    hide Numbers, Longs, Octet;
    NumbersArrive(uids);
  }

  lemma TextHeard(src: nat, public: bool, text: seq<byte>)
    ensures Heard(TextFrom(src, public, text)) == RecvText(public, src % LONGS, text)
  {
    hide NetworkLong, BigEndian, Octet;
    LongArrives(src, text);
  }

  /** The answers to a text, the order to shut down, a refusal. */
  lemma AnswersHeard(kind: byte)
    ensures Heard(TextReply(0x00)) == TextSent && Heard(TextReply(0xF0)) == NoSuchUser
    ensures Heard(TextReply(0xF1)) == UserOffline && Heard(TextReply(0xFF)) == Closing(0x93, 0xFF)
    ensures Heard(SHUTDOWN) == LogoutByOthers
    ensures kind == 0x90 || kind == 0x91 || kind == 0x92 || kind == 0x93 || kind == 0x95 ==>
              Heard(Message(kind, 0xFF, NoData)) == Closing(kind, 0xFF)
  {
    hide Octet;
  }

  /** The messages of the server after which it closes a connection: the order to shut down, a refused
      login and every refusal, and no other. */
  lemma LastMessages(kind: byte, legal: bool, first: bool, again: bool, account: Payload,
                     uid: nat, uids: seq<nat>, flag: bool, text: seq<byte>, sub: byte)
    ensures IsLast(SHUTDOWN) && IsLast(Refusal(kind))
    ensures IsLast(LoginReply(legal, first, again, account)) <==> !legal
    ensures IsLast(TextReply(sub)) <==> sub == 0xFF
    ensures !IsLast(Presence(uid, flag)) && !IsLast(UserList(uids, flag)) && !IsLast(TextFrom(uid, flag, text))
  {}
}
