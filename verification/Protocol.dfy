/** What a complete message of a client does, said from its bytes and the answers of the database to what
    the clients hear: section by section of server/Connections.cpp, without its functions. */
module Protocol {
  import opened PartialIo
  import opened Framing
  import opened Octets
  import opened Messages
  import opened Requests
  import opened Descriptors
  import opened Sessions
  import opened Client

  /** The number in the first four bytes. */
  function FirstNumber(body: seq<byte>): nat
    requires |body| >= 4
  {
    BigEndian(body[..4])
  }

  // ----- which types there are

  predicate IsLogin(kind: byte, sub: byte, body: seq<byte>, db: Db) {
    kind == 0x10 && sub == 0x00 && |body| == 56 && db.loginChecked
  }

  predicate IsText(kind: byte, sub: byte, body: seq<byte>) {
    kind == 0x13 && sub <= 0x01 && |body| <= 4 + 1024
  }

  /** The four kinds of file messages. */
  predicate IsFile(kind: byte, body: seq<byte>) {
    || (kind == 0x17 && |body| == 76) || (kind == 0x18 && |body| == 8)
    || (kind == 0x19 && |body| > 0) || (kind == 0x1A && |body| == 12)
  }

  /** To whom a file message goes; a short one is read on into what lies behind it. */
  function FileReceiver(body: seq<byte>, db: Db): nat {
    FirstNumber(body + db.beyond + [0, 0, 0, 0])
  }

  // ----- what ends the process

  predicate LoginEnds(b: Book, fd: nat, db: Db) {
    || (fd in b.uidOf && !(db.legal && !db.first && b.uidOf[fd] == db.uid))
    || (db.legal && db.first && db.uid in b.fdOf)
    || (db.legal && |db.everyone| < |b.fdOf.Keys + {db.uid}|)
  }

  predicate TextEnds(b: Book, fd: nat, public: bool, body: seq<byte>, db: Db) {
    || body == []
    || fd !in b.uidOf
    || (|body| < 4 && (public || db.checked))
    || (|body| >= 4 && public && db.saved && FirstNumber(body) != 0xFFFF && FirstNumber(body) !in b.fdOf)
  }

  predicate Ends(b: Book, fd: nat, kind: byte, sub: byte, body: seq<byte>, used: bool, db: Db) {
    || (IsLogin(kind, sub, body, db) && LoginEnds(b, fd, db))
    || (kind == 0x12 && sub <= 0x01 && |body| == 4 && fd !in b.uidOf)
    || (IsText(kind, sub, body) && TextEnds(b, fd, sub == 0x01, body, db))
    || (kind == 0x15 && sub == 0x00 && |body| == 56 && fd !in b.uidOf)
    || (IsFile(kind, body) && (fd !in b.uidOf || FileReceiver(body, db) !in b.fdOf))
    || (kind == 0x19 && body == [] && !used)
  }

  /** A login that does not end the process, for which the database lists more users than fit. */
  predicate ListsOverrun(b: Book, fd: nat, kind: byte, sub: byte, body: seq<byte>, db: Db) {
    var users := b.fdOf.Keys + {db.uid};
    && IsLogin(kind, sub, body, db) && db.legal && !LoginEnds(b, fd, db)
    && (|Listed(db.everyone, db.uid, users, true)| > |users| - 1 ||
        |Listed(db.everyone, db.uid, users, false)| > |db.everyone| - |users|)
  }

  // ----- who is logged in then

  function UsersAfter(b: Book, fd: nat, kind: byte, sub: byte, body: seq<byte>, db: Db): map<nat, nat> {
    if IsLogin(kind, sub, body, db) && db.legal then
      (b.uidOf - if db.uid in b.fdOf then {b.fdOf[db.uid]} else {})[fd := db.uid]
    else b.uidOf
  }

  // ----- what the client at g hears

  /** The users of a list in a message with room for size of them. */
  function InSlots(uids: seq<nat>, size: nat): seq<nat> {
    seq(size, i requires 0 <= i < size => if i < |uids| then uids[i] % LONGS else 0)
  }

  function HearsOfLogin(b: Book, fd: nat, db: Db, g: nat): seq<Signal>
    requires !LoginEnds(b, fd, db)
  {
    var (users, uid, color) := (b.fdOf.Keys + {db.uid}, db.uid % LONGS, db.color % LONGS);
    var moves := db.legal && !db.first && db.uid in b.fdOf;
    var shutdown := if moves && g == b.fdOf[db.uid] then [LogoutByOthers] else [];
    if g != fd then
      if shutdown != [] then shutdown else if db.legal && g in b.uidOf then [CameOnline([uid])] else []
    else if !db.legal then [LoginFailed]
    else
      shutdown +
      [if db.first then NeedChangePassword(uid, color) else if moves then LogoutOthers(uid, color)
       else LoginSuccess(uid, color),
       CameOnline(InSlots(Listed(db.everyone, db.uid, users, true), |users| - 1)),
       WentOffline(InSlots(Listed(db.everyone, db.uid, users, false), |db.everyone| - |users|))]
  }

  function HearsOfText(b: Book, fd: nat, public: bool, body: seq<byte>, db: Db, g: nat): seq<Signal>
    requires fd in b.uidOf
  {
    if |body| < 4 || (!public && !db.checked) || !db.saved then
      if g == fd then [Closing(0x93, 0xFF)] else []
    else
      var dst := FirstNumber(body);
      var exists' := if public then dst == 0xFFFF else db.found;
      var online := public || dst in b.fdOf;
      var receives := online && g in b.uidOf && if dst == 0xFFFF then g != fd else b.uidOf[g] == dst;
      (if g == fd then [if !exists' then NoSuchUser else if !online then UserOffline else TextSent] else []) +
      (if receives then [RecvText(public, b.uidOf[fd] % LONGS, body[4..])] else [])
  }

  /** The answer to any other message. */
  function Reply(kind: byte, sub: byte, body: seq<byte>, db: Db): Signal {
    if kind == 0x11 && sub == 0x00 && |body| == 4 && db.checked then
      if db.found then UserName(db.name) else Closing(0x91, 0xF0)
    else if kind == 0x12 && sub <= 0x01 && |body| == 4 then
      if sub == 0x00 && db.checked && !db.found then Closing(0x92, 0xF0)
      else if (sub == 0x00 && !db.checked) || !db.fetched then Closing(0x92, 0xFF)
      else History(db.records)
    else if kind == 0x15 && sub == 0x00 && |body| == 56 then
      if db.changed then PasswordChanged else PasswordRefused
    else Refused(kind)
  }

  /** A message that the server does not know: the type with its high bit set, and sub-type 0xFF. */
  function Refused(kind: byte): Signal {
    var k := kind | 0x80;
    if k == 0x90 || k == 0x91 || k == 0x92 || k == 0x93 || k == 0x95 || k == 0xA0 || k == 0xA1 || k == 0xA3
    then Closing(k, 0xFF)
    else if 0xA7 <= k <= 0xAA then File(k, 0xFF, [])
    else Ignored(k, 0xFF)
  }

  function FileKind(kind: byte): byte {
    if kind == 0x17 then 0xA7 else if kind == 0x18 then 0xA8 else 0xA9
  }

  function Hears(b: Book, fd: nat, kind: byte, sub: byte, body: seq<byte>, used: bool, db: Db, g: nat): seq<Signal>
    requires !Ends(b, fd, kind, sub, body, used, db)
  {
    if IsLogin(kind, sub, body, db) then HearsOfLogin(b, fd, db, g)
    else if IsText(kind, sub, body) then HearsOfText(b, fd, sub == 0x01, body, db, g)
    else if IsFile(kind, body) then
      if g == b.fdOf[FileReceiver(body, db)] then [File(FileKind(kind), sub, body)] else []
    else if g == fd then [Reply(kind, sub, body, db)]
    else []
  }

  /** A queue has grown by messages that the client hears like this. */
  predicate Grows(q: seq<Message>, q': seq<Message>, signals: seq<Signal>) {
    q <= q' && AllHeard(q'[|q|..]) == signals
  }

  /** What one call of recv_msg does to the book, from what it finds in the bytes. */
  ghost predicate Handled(b: Book, fd: nat, found: Found, used: bool, db: Db, v: Verdict, b': Book)
  {
    && |b.queues| == FD_SETSIZE
    && match found
    case Gone => v == Drop && b' == b
    case More => v == Keep && b' == b
    case Unknown(kind) =>
      && v == Keep && b'.uidOf == b.uidOf && |b'.queues| == FD_SETSIZE
      && forall g: nat :: g < FD_SETSIZE ==> Grows(b.queues[g], b'.queues[g], if g == fd then [Refused(kind)] else [])
    case Parsed(f) =>
      && Formed(f)
      && var (kind, sub, body) := (f.head[0], f.head[1], f.body);
      && v != Drop
      && (v == Abort <==> Ends(b, fd, kind, sub, body, used, db))
      && (v == Overrun <==> ListsOverrun(b, fd, kind, sub, body, db))
      && (v == Keep ==>
            && b'.uidOf == UsersAfter(b, fd, kind, sub, body, db) && |b'.queues| == FD_SETSIZE
            && forall g: nat :: g < FD_SETSIZE ==>
                 Grows(b.queues[g], b'.queues[g], Hears(b, fd, kind, sub, body, used, db, g)))
  }

  // ----- that it is so

  lemma FirstLong(body: seq<byte>)
    requires |body| >= 4
    ensures FirstNumber(body) == HostLong(body)
  {
    hide BigEndian;
    FourBytes(body[..4]);
  }

  lemma ReceiverLong(body: seq<byte>, beyond: seq<byte>)
    requires |body| > 0
    ensures BigEndian((body + beyond + [0, 0, 0, 0])[..4]) == HostLong(body + beyond + [0, 0, 0])
    ensures |body| >= 4 ==> HostLong(body + beyond + [0, 0, 0]) == HostLong(body)
  {
    hide BigEndian;
    assert (body + beyond + [0, 0, 0, 0])[..4] == (body + beyond + [0, 0, 0])[..4];
    FourBytes((body + beyond + [0, 0, 0])[..4]);
  }

  /** The messages that are answered at once. */
  predicate IsPlain(kind: byte, sub: byte, body: seq<byte>, used: bool, db: Db) {
    && !IsLogin(kind, sub, body, db) && !IsText(kind, sub, body) && !IsFile(kind, body)
    && !(kind == 0x19 && body == [] && !used)
  }

  /** Two of them are for users only. */
  predicate ForUsers(kind: byte, sub: byte, body: seq<byte>) {
    (kind == 0x12 && sub <= 0x01 && |body| == 4) || (kind == 0x15 && sub == 0x00 && |body| == 56)
  }

  lemma ParsedLogin(head: seq<byte>, body: seq<byte>, used: bool, db: Db)
    requires |head| == HEADER && IsLogin(head[0], head[1], body, db)
    ensures Parse(head, body, used, db) == Login(db.uid, db.legal, db.first, db.color, db.everyone)
  {}

  lemma ParsedText(head: seq<byte>, body: seq<byte>, used: bool, db: Db)
    requires |head| == HEADER && IsText(head[0], head[1], body)
    ensures Parse(head, body, used, db) ==
            if body == [] then Broken
            else if |body| < 4 then ShortText(head[1] == 0x01, db.checked)
            else Text(head[1] == 0x01, FirstNumber(body), body[4..], db.checked, db.found, db.saved)
  {
    hide HostLong, FirstNumber;
    if |body| >= 4 {
      FirstLong(body);
    }
  }

  lemma ParsedFile(head: seq<byte>, body: seq<byte>, used: bool, db: Db)
    requires |head| == HEADER && IsFile(head[0], body)
    ensures Parse(head, body, used, db) ==
            Relay(Message(FileKind(head[0]), head[1], Bytes(body)), FileReceiver(body, db))
  {
    hide HostLong, BigEndian;
    ReceiverLong(body, db.beyond);
  }

  lemma ParsedName(head: seq<byte>, body: seq<byte>, used: bool, db: Db)
    requires |head| == HEADER && head[0] == 0x11 && head[1] == 0x00 && |body| == 4 && db.checked
    ensures Parse(head, body, used, db) ==
            Answered(if db.found then Message(0x91, 0x00, Bytes(db.name)) else Message(0x91, 0xF0, NoData), false)
    ensures Heard(Message(0x91, 0x00, Bytes(db.name))) == UserName(db.name)
    ensures Heard(Message(0x91, 0xF0, NoData)) == Closing(0x91, 0xF0)
  {
    hide Octet, BigEndian, Numbers;
  }

  lemma ParsedRecords(head: seq<byte>, body: seq<byte>, used: bool, db: Db)
    requires |head| == HEADER && head[0] == 0x12 && head[1] <= 0x01 && |body| == 4
    ensures Parse(head, body, used, db) == Answered(Records(head[1] == 0x00, db), true)
    ensures Heard(Records(head[1] == 0x00, db)) == Reply(0x12, head[1], body, db)
  {
    hide Octet, BigEndian, Numbers;
  }

  lemma ParsedPassword(head: seq<byte>, body: seq<byte>, used: bool, db: Db)
    requires |head| == HEADER && head[0] == 0x15 && head[1] == 0x00 && |body| == 56
    ensures Parse(head, body, used, db) == Answered(Message(0x95, if db.changed then 0x00 else 0xF0, NoData), true)
    ensures Heard(Message(0x95, 0x00, NoData)) == PasswordChanged
    ensures Heard(Message(0x95, 0xF0, NoData)) == PasswordRefused
  {
    hide Octet, BigEndian, Numbers;
  }

  lemma ParsedUnknown(head: seq<byte>, body: seq<byte>, used: bool, db: Db)
    requires |head| == HEADER && IsPlain(head[0], head[1], body, used, db) && !ForUsers(head[0], head[1], body)
    requires !(head[0] == 0x11 && head[1] == 0x00 && |body| == 4 && db.checked)
    ensures Parse(head, body, used, db) == Answered(Refusal(head[0]), false)
  {
    hide HostLong;
  }

  lemma ParsedPlain(head: seq<byte>, body: seq<byte>, used: bool, db: Db)
    requires |head| == HEADER && IsPlain(head[0], head[1], body, used, db)
    ensures var req := Parse(head, body, used, db);
            && req.Answered? && (req.membersOnly <==> ForUsers(head[0], head[1], body))
            && Heard(req.reply) == Reply(head[0], head[1], body, db)
  {
    hide Parse, Heard, Refused, Records, Refusal;
    if head[0] == 0x11 && head[1] == 0x00 && |body| == 4 && db.checked {
      ParsedName(head, body, used, db);
    } else if head[0] == 0x12 && head[1] <= 0x01 && |body| == 4 {
      ParsedRecords(head, body, used, db);
    } else if head[0] == 0x15 && head[1] == 0x00 && |body| == 56 {
      ParsedPassword(head, body, used, db);
    } else {
      ParsedUnknown(head, body, used, db);
      RefusalHeard(head[0]);
    }
  }

  lemma ParsedBroken(head: seq<byte>, used: bool, db: Db)
    requires |head| == HEADER && head[0] == 0x19 && !used
    ensures Parse(head, [], used, db) == Broken
  {}

  lemma RefusalHeard(kind: byte)
    ensures Heard(Refusal(kind)) == Refused(kind)
  {
    hide Octet, BigEndian, Numbers;
  }

  /** The two descriptions of what ends the process, and of what overruns a list, agree on a message. */
  predicate Agree(b: Book, fd: nat, head: seq<byte>, body: seq<byte>, used: bool, db: Db)
    requires |head| == HEADER
  {
    && (Ends(b, fd, head[0], head[1], body, used, db) <==> Fatal(b, fd, Parse(head, body, used, db)))
    && (ListsOverrun(b, fd, head[0], head[1], body, db) <==> Overruns(b, fd, Parse(head, body, used, db)))
  }

  lemma LoginsAgree(b: Book, fd: nat, head: seq<byte>, body: seq<byte>, used: bool, db: Db)
    requires |head| == HEADER && IsLogin(head[0], head[1], body, db)
    ensures Agree(b, fd, head, body, used, db)
  {
    hide Parse, FirstNumber, FileReceiver, Listed;
    ParsedLogin(head, body, used, db);
  }

  lemma TextsAgree(b: Book, fd: nat, head: seq<byte>, body: seq<byte>, used: bool, db: Db)
    requires |head| == HEADER && IsText(head[0], head[1], body)
    ensures Agree(b, fd, head, body, used, db)
  {
    hide Parse, FirstNumber, FileReceiver;
    ParsedText(head, body, used, db);
  }

  lemma FilesAgree(b: Book, fd: nat, head: seq<byte>, body: seq<byte>, used: bool, db: Db)
    requires |head| == HEADER && IsFile(head[0], body)
    ensures Agree(b, fd, head, body, used, db)
  {
    hide Parse, FirstNumber, FileReceiver;
    ParsedFile(head, body, used, db);
  }

  lemma PlainAgree(b: Book, fd: nat, head: seq<byte>, body: seq<byte>, used: bool, db: Db)
    requires |head| == HEADER && IsPlain(head[0], head[1], body, used, db)
    ensures Agree(b, fd, head, body, used, db)
  {
    hide Parse, FirstNumber, FileReceiver;
    ParsedPlain(head, body, used, db);
  }

  lemma EndsIsFatal(b: Book, fd: nat, head: seq<byte>, body: seq<byte>, used: bool, db: Db)
    requires |head| == HEADER
    ensures Agree(b, fd, head, body, used, db)
  {
    hide Agree;
    if IsLogin(head[0], head[1], body, db) {
      LoginsAgree(b, fd, head, body, used, db);
    } else if IsText(head[0], head[1], body) {
      TextsAgree(b, fd, head, body, used, db);
    } else if IsFile(head[0], body) {
      FilesAgree(b, fd, head, body, used, db);
    } else if head[0] == 0x19 && body == [] && !used {
      BrokenAgrees(b, fd, head, used, db);
    } else {
      PlainAgree(b, fd, head, body, used, db);
    }
  }

  lemma BrokenAgrees(b: Book, fd: nat, head: seq<byte>, used: bool, db: Db)
    requires |head| == HEADER && head[0] == 0x19 && !used
    ensures Agree(b, fd, head, [], used, db)
  {
    hide Parse, FirstNumber, FileReceiver;
    ParsedBroken(head, used, db);
  }

  lemma OneHeard(m: Message)
    ensures AllHeard([m]) == [Heard(m)] && AllHeard([]) == []
  {}

  lemma ListSlots(uids: seq<nat>, size: nat, online: bool)
    requires |uids| <= size
    ensures Heard(UserList(Filled(uids, size), online)) ==
            if online then CameOnline(InSlots(uids, size)) else WentOffline(InSlots(uids, size))
  {
    hide Heard;
    ListHeard(Filled(uids, size), online);
    assert Longs32(Filled(uids, size)) == InSlots(uids, size);
  }

  lemma ListsHeard(everyone: seq<nat>, uid: nat, users: set<nat>)
    requires users != {} && !TooFew(everyone, users) && !Overfull(everyone, uid, users)
    ensures AllHeard(Lists(everyone, uid, users)) ==
            [CameOnline(InSlots(Listed(everyone, uid, users, true), |users| - 1)),
             WentOffline(InSlots(Listed(everyone, uid, users, false), |everyone| - |users|))]
  {
    hide Heard, Listed, InSlots, Filled;
    ListSlots(Listed(everyone, uid, users, true), |users| - 1, true);
    ListSlots(Listed(everyone, uid, users, false), |everyone| - |users|, false);
  }

  lemma ToldOfLogin(b: Book, fd: nat, db: Db, g: nat)
    requires !LoginEnds(b, fd, db)
    requires db.legal ==> !Overfull(db.everyone, db.uid, b.fdOf.Keys + {db.uid})
    ensures AllHeard(ToldByLogIn(b, fd, db.uid, db.legal, db.first, db.color, db.everyone, g)) ==
            HearsOfLogin(b, fd, db, g)
  {
    hide Heard, Lists, AllHeard, Overfull, InSlots, Listed;
    OneHeard(SHUTDOWN);
    OneHeard(Presence(db.uid, true));
    PresenceHeard(db.uid, true);
    AnswersHeard(0x90);
    if g == fd {
      ToldToNewcomer(b, fd, db);
    }
  }

  lemma ToldToNewcomer(b: Book, fd: nat, db: Db)
    requires !LoginEnds(b, fd, db)
    requires db.legal ==> !Overfull(db.everyone, db.uid, b.fdOf.Keys + {db.uid})
    ensures AllHeard(ToldByLogIn(b, fd, db.uid, db.legal, db.first, db.color, db.everyone, fd)) ==
            HearsOfLogin(b, fd, db, fd)
  {
    hide Heard, Listed, InSlots, Lists, AllHeard, Overfull, LoginReply;
    var moves := db.legal && !db.first && db.uid in b.fdOf;
    var reply := LoginReply(db.legal, db.first, moves, Account(db.uid, db.color));
    LoginHeard(db.first, moves, db.uid, db.color);
    AnswersHeard(0x90);
    OneHeard(SHUTDOWN);
    OneHeard(reply);
    assert [] + [reply] == [reply] && [reply] + [] == [reply];
    if db.legal {
      var lists := Lists(db.everyone, db.uid, b.fdOf.Keys + {db.uid});
      ListsHeard(db.everyone, db.uid, b.fdOf.Keys + {db.uid});
      HeardConcat([SHUTDOWN] + [reply], lists);
      HeardConcat([reply], lists);
      HeardConcat([SHUTDOWN], [reply]);
    }
  }

  lemma ToldOfText(b: Book, fd: nat, public: bool, body: seq<byte>, db: Db, g: nat)
    requires fd in b.uidOf && |body| >= 4
    ensures AllHeard(ToldByText(b, fd, public, FirstNumber(body), body[4..], db.checked, db.found, db.saved, g)) ==
            HearsOfText(b, fd, public, body, db, g)
  {
    hide Heard, AllHeard, FirstNumber;
    AnswersHeard(0x93);
    TextHeard(b.uidOf[fd], public, body[4..]);
    var answers := ToldByText(b, fd, public, FirstNumber(body), body[4..], db.checked, db.found, db.saved, g);
    OneHeard(TextFrom(b.uidOf[fd], public, body[4..]));
    OneHeard(TextReply(0xFF));
    OneHeard(TextReply(0xF0));
    OneHeard(TextReply(0xF1));
    OneHeard(TextReply(0x00));
    forall sub: byte
      ensures AllHeard([TextReply(sub)] + [TextFrom(b.uidOf[fd], public, body[4..])]) ==
              AllHeard([TextReply(sub)]) + AllHeard([TextFrom(b.uidOf[fd], public, body[4..])])
    {
      HeardConcat([TextReply(sub)], [TextFrom(b.uidOf[fd], public, body[4..])]);
    }
    assert forall m: Message :: [m] + [] == [m] && [] + [m] == [m];
  }

  lemma ToldOfFile(kind: byte, sub: byte, body: seq<byte>)
    ensures AllHeard([Message(FileKind(kind), sub, Bytes(body))]) == [File(FileKind(kind), sub, body)]
  {
    hide Octet, BigEndian, Numbers;
  }

  /** What the queue of g is told of a message is what the client at g hears. */
  lemma ToldIsHeard(b: Book, fd: nat, head: seq<byte>, body: seq<byte>, used: bool, db: Db, g: nat)
    requires |head| == HEADER && !Ends(b, fd, head[0], head[1], body, used, db)
    requires !ListsOverrun(b, fd, head[0], head[1], body, db) && !Fatal(b, fd, Parse(head, body, used, db))
    ensures AllHeard(ToldByRequest(b, fd, Parse(head, body, used, db), g)) ==
            Hears(b, fd, head[0], head[1], body, used, db, g)
  {
    hide Parse, FirstNumber, FileReceiver, Listed, Heard, AllHeard, ToldByText, ToldByLogIn, HearsOfLogin, HearsOfText;
    hide Reply;
    OneHeard(TextReply(0xFF));
    if IsLogin(head[0], head[1], body, db) {
      ParsedLogin(head, body, used, db);
      ToldOfLogin(b, fd, db, g);
    } else if IsText(head[0], head[1], body) {
      ParsedText(head, body, used, db);
      if |body| >= 4 {
        ToldOfText(b, fd, head[1] == 0x01, body, db, g);
      } else {
        ShortIsRefused(b, fd, head[1] == 0x01, body, db, g);
      }
    } else if IsFile(head[0], body) {
      ParsedFile(head, body, used, db);
      ToldOfFile(head[0], head[1], body);
    } else {
      ParsedPlain(head, body, used, db);
      OneHeard(Parse(head, body, used, db).reply);
    }
  }

  lemma ShortIsRefused(b: Book, fd: nat, public: bool, body: seq<byte>, db: Db, g: nat)
    requires fd in b.uidOf && |body| < 4
    ensures HearsOfText(b, fd, public, body, db, g) == if g == fd then [Closing(0x93, 0xFF)] else []
    ensures Heard(TextReply(0xFF)) == Closing(0x93, 0xFF)
  {
    hide Heard;
    AnswersHeard(0x93);
  }

  lemma UsersThen(b: Book, clients: set<nat>, fd: nat, req: Request)
    requires Consistent(b, clients) && fd in clients && Receive(b, fd, req).0 == Keep
    ensures Receive(b, fd, req).1.uidOf ==
            if req.Login? && req.legal then
              (b.uidOf - if req.uid in b.fdOf then {b.fdOf[req.uid]} else {})[fd := req.uid]
            else b.uidOf
  {
    hide LogIn, TakeText, Consistent;
    OneDescriptorEach(b, clients, 0);
    match req
    case Login(uid, legal, first, color, everyone) => {
      if legal {
        LogInTells(b, clients, fd, uid, first, color, everyone);
      } else {
        IllegalTells(b, fd, uid, first, color, everyone);
        LogInPasses(b, clients, fd, uid, legal, first, color, everyone);
      }
    }
    case Text(public, dst, text, checked, found, saved) => {
      TextTells(b, clients, fd, public, dst, text, checked, found, saved);
    }
    case _ =>
  }

  /** Who is logged in after a message that is served. */
  lemma LoggedInThen(b: Book, clients: set<nat>, fd: nat, head: seq<byte>, body: seq<byte>, used: bool, db: Db)
    requires Consistent(b, clients) && fd in clients && |head| == HEADER
    requires Receive(b, fd, Parse(head, body, used, db)).0 == Keep
    ensures Receive(b, fd, Parse(head, body, used, db)).1.uidOf == UsersAfter(b, fd, head[0], head[1], body, db)
  {
    hide Parse, FirstNumber, FileReceiver, Consistent, Receive;
    UsersThen(b, clients, fd, Parse(head, body, used, db));
    if IsLogin(head[0], head[1], body, db) {
      ParsedLogin(head, body, used, db);
    } else if IsText(head[0], head[1], body) {
      ParsedText(head, body, used, db);
    } else if IsFile(head[0], body) {
      ParsedFile(head, body, used, db);
    } else if head[0] == 0x19 && body == [] && !used {
      ParsedBroken(head, used, db);
    } else {
      ParsedPlain(head, body, used, db);
    }
  }

  /** The news that a file has arrived, 0x1A, is passed on as if it were a part of the file, 0xA9: whatever
      is sent by whomever, 0xAA is never heard but as a refusal, by the sender of the message refused. */
  lemma SuccessUnheard(b: Book, fd: nat, kind: byte, sub: byte, body: seq<byte>, used: bool, db: Db, g: nat, x: Signal)
    requires !Ends(b, fd, kind, sub, body, used, db) && x in Hears(b, fd, kind, sub, body, used, db, g)
    ensures x.File? && x.kind == 0xAA ==> g == fd && x == File(0xAA, 0xFF, []) && (kind == 0x1A ==> |body| != 12)
    ensures kind == 0x1A && |body| == 12 ==>
              FileReceiver(body, db) in b.fdOf && g == b.fdOf[FileReceiver(body, db)] && x == File(0xA9, sub, body)
  {
    hide FileReceiver, FirstNumber, Listed, InSlots;
  }

  lemma GrownBy(q: seq<Message>, q': seq<Message>, told: seq<Message>)
    requires q' == q + told
    ensures Grows(q, q', AllHeard(told))
  {
    assert q'[|q|..] == told;
  }

  /** What the session book does with a message that is found in a client's bytes. */
  lemma MessageHandled(b: Book, clients: set<nat>, fd: nat, head: seq<byte>, body: seq<byte>, used: bool, db: Db)
    requires Consistent(b, clients) && fd in clients && Formed(Frame(head, body))
    requires |b.queues| == FD_SETSIZE && fd < FD_SETSIZE && forall u :: u in b.fdOf ==> b.fdOf[u] < FD_SETSIZE
    ensures var (v, b') := Receive(b, fd, Parse(head, body, used, db));
            Handled(b, fd, Parsed(Frame(head, body)), used, db, v, b')
  {
    hide Parse, Consistent, Receive, Fatal, Overruns, Ends, ListsOverrun, Hears, ToldByRequest, UsersAfter, AllHeard;
    hide Grows, LengthOf;
    var req := Parse(head, body, used, db);
    var (v, b') := Receive(b, fd, req);
    EndsIsFatal(b, fd, head, body, used, db);
    ReceiveAborts(b, clients, fd, req);
    NoHangup(head, body, used, db);
    if v == Keep {
      LoggedInThen(b, clients, fd, head, body, used, db);
      ReceiveTells(b, clients, fd, req);
      forall g: nat | g < FD_SETSIZE
        ensures Grows(b.queues[g], b'.queues[g], Hears(b, fd, head[0], head[1], body, used, db, g))
      {
        ToldIsHeard(b, fd, head, body, used, db, g);
        GrownBy(b.queues[g], b'.queues[g], ToldByRequest(b, fd, req, g));
      }
    }
  }

  lemma NoHangup(head: seq<byte>, body: seq<byte>, used: bool, db: Db)
    requires |head| == HEADER
    ensures !Parse(head, body, used, db).Hangup?
  {}

  /** The book after a call matters only if the process goes on. */
  lemma OnlyIfKept(b: Book, fd: nat, found: Found, used: bool, db: Db, v: Verdict, b': Book, b'': Book)
    requires Handled(b, fd, found, used, db, v, b') && (v == Keep || v == Drop ==> b'' == b')
    ensures Handled(b, fd, found, used, db, v, b'')
  {
    hide Ends, ListsOverrun, Hears, Grows, UsersAfter;
  }

  /** One call of recv_msg, whatever it finds. */
  lemma CallHandled(b: Book, clients: set<nat>, fd: nat, found: Found, used: bool, db: Db)
    requires Consistent(b, clients) && fd in clients && (found.Parsed? ==> Formed(found.frame))
    requires |b.queues| == FD_SETSIZE && fd < FD_SETSIZE && forall u :: u in b.fdOf ==> b.fdOf[u] < FD_SETSIZE
    ensures var (v, b') := Receive(b, fd, RequestOf(found, used, db));
            Handled(b, fd, found, used, db, v, b')
  {
    hide Consistent, Hears, Ends, Parse, Refused, Heard, AllHeard, LengthOf;
    match found
    case Parsed(f) => {
      MessageHandled(b, clients, fd, f.head, f.body, used, db);
    }
    case Unknown(kind) => {
      RefusalHeard(kind);
      OneHeard(Refusal(kind));
      forall g: nat | g < FD_SETSIZE
        ensures Grows(b.queues[g], Enqueue(b, fd, Refusal(kind)).queues[g], if g == fd then [Refused(kind)] else [])
      {
        GrownBy(b.queues[g], Enqueue(b, fd, Refusal(kind)).queues[g], if g == fd then [Refusal(kind)] else []);
      }
    }
    case _ =>
  }
}
