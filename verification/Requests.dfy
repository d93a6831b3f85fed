/** parse of server/Connections.cpp, and what its handlers find in a message before they look at who
    sent it. */
module Requests {
  import opened PartialIo
  import opened Framing
  import opened Messages

  /** What recv_msg finds, with what the database says: nothing more to read, or an error; a message not
      yet complete; a request answered with one message, and whether it is for users that are logged in;
      a login, a text, or a message to be passed on; a text too short to hold its receiver; and a
      message that fails an assertion on its size, or of which nothing is there to be read. */
  datatype Request =
    | Hangup
    | Incomplete
    | Answered(reply: Message, membersOnly: bool)
    | Login(uid: nat, legal: bool, first: bool, color: nat, everyone: seq<nat>)
    | Text(public: bool, dst: nat, text: seq<byte>, checked: bool, found: bool, saved: bool)
    | Relay(m: Message, dst: nat)
    | ShortText(public: bool, checked: bool)
    | Broken

  /** What the database answers, should the message ask for it; a failed query leaves the list of all
      users empty.  beyond is what the memory behind a short message holds. */
  datatype Db = Db(
    loginChecked: bool, legal: bool, first: bool, uid: nat, color: nat, everyone: seq<nat>,
    checked: bool, found: bool, name: seq<byte>, fetched: bool, records: seq<byte>,
    saved: bool, changed: bool, beyond: seq<byte>)

  /** A message with its body.  A message without one is parsed with what data still holds; used says
      that this is something. */
  function Parse(head: seq<byte>, body: seq<byte>, used: bool, db: Db): Request
    requires |head| == HEADER
  {
    var (kind, sub, length) := (head[0], head[1], HEADER + |body|);
    if kind == 0x10 then
      if sub != 0x00 || length != HEADER + 56 || !db.loginChecked then Answered(Refusal(kind), false)
      else Login(db.uid, db.legal, db.first, db.color, db.everyone)
    else if kind == 0x11 then
      if sub != 0x00 || length != HEADER + 4 || !db.checked then Answered(Refusal(kind), false)
      else Answered(if db.found then Message(0x91, 0x00, Bytes(db.name)) else Message(0x91, 0xF0, NoData), false)
    else if kind == 0x12 then
      if (sub != 0x00 && sub != 0x01) || length != HEADER + 4 then Answered(Refusal(kind), false)
      else Answered(Records(sub == 0x00, db), true)
    else if kind == 0x13 then
      if (sub != 0x00 && sub != 0x01) || length > HEADER + 4 + 1024 then Answered(Refusal(kind), false)
      else if body == [] then Broken
      else if |body| < 4 then ShortText(sub == 0x01, db.checked)
      else Text(sub == 0x01, HostLong(body), body[4..], db.checked, db.found, db.saved)
    else if kind == 0x15 then
      if sub != 0x00 || length != HEADER + 56 then Answered(Refusal(kind), false)
      else Answered(Message(0x95, if db.changed then 0x00 else 0xF0, NoData), true)
    else if kind == 0x17 && length == HEADER + 76 then Relay(Message(0xA7, sub, Bytes(body)), HostLong(body))
    else if kind == 0x18 && length == HEADER + 8 then Relay(Message(0xA8, sub, Bytes(body)), HostLong(body))
    else if kind == 0x19 && body != [] then
      Relay(Message(0xA9, sub, Bytes(body)), HostLong(body + db.beyond + [0, 0, 0]))
    else if kind == 0x19 && !used then Broken
    else if kind == 0x1A && length == HEADER + 12 then Relay(Message(0xA9, sub, Bytes(body)), HostLong(body))
    else Answered(Refusal(kind), false)
  }

  /** The answer of parse_chatrecord. */
  function Records(private: bool, db: Db): Message {
    if private && !db.checked then Refusal(0x12)
    else if private && !db.found then Message(0x92, 0xF0, NoData)
    else if !db.fetched then Refusal(0x12)
    else Message(0x92, 0x00, Bytes(db.records))
  }

  /** The request behind what one call of recv_msg finds. */
  function RequestOf(found: Found, used: bool, db: Db): Request
    requires found.Parsed? ==> |found.frame.head| == HEADER
  {
    match found
    case Gone => Hangup
    case More => Incomplete
    case Unknown(kind) => Answered(Refusal(kind), false)
    case Parsed(frame) => Parse(frame.head, frame.body, used, db)
  }

  /** A message that is passed on is never too long, whatever the client sent. */
  lemma PassedOnFits(f: Frame, used: bool, db: Db, src: nat)
    requires Formed(f)
    ensures var req := Parse(f.head, f.body, used, db);
            && (req.Relay? ==> !TooLong(req.m))
            && (req.Text? ==> !TooLong(TextFrom(src, req.public, req.text)))
  {
    hide HostLong, NetworkLong, Refusal, Records;
    AnnouncedSize(f.head);
  }

  lemma AnnouncedSize(head: seq<byte>)
    requires |head| == HEADER
    ensures LengthOf(head) <= 0xFFFF
  {}
}
