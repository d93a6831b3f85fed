/** The bookkeeping of server/Connections.cpp: one queue of outgoing messages per descriptor, the set
    of descriptors with something to write, and the two maps between descriptors and users. */
module Sessions {
  import opened Descriptors
  import opened PartialIo
  import opened Framing
  import opened Messages
  import opened Requests

  datatype Book = Book(queues: seq<seq<Message>>, wfds: set<nat>, uidOf: map<nat, nat>, fdOf: map<nat, nat>)

  /** The receiver of messages to everybody. */
  const EVERYBODY: nat := 0xFFFF

  function NewBook(): Book {
    Book(seq(FD_SETSIZE, _ => []), {}, map[], map[])
  }

  /** The writable set is the set of descriptors with a message queued, all of them clients; the two
      maps are inverse to each other, and only clients are logged in. */
  predicate Consistent(b: Book, clients: set<nat>) {
    && |b.queues| == FD_SETSIZE
    && (forall fd :: fd in b.wfds ==> fd < |b.queues| && b.queues[fd] != [])
    && (forall fd :: 0 <= fd < |b.queues| && b.queues[fd] != [] ==> fd in b.wfds)
    && b.wfds <= clients
    && b.uidOf.Keys <= clients
    && (forall fd :: fd in b.uidOf ==> b.uidOf[fd] in b.fdOf && b.fdOf[b.uidOf[fd]] == fd)
    && (forall uid :: uid in b.fdOf ==> b.fdOf[uid] in b.uidOf && b.uidOf[b.fdOf[uid]] == uid)
    && (forall fd :: fd in clients ==> fd < FD_SETSIZE)
  }

  // ----- queueing

  function Enqueue(b: Book, fd: nat, m: Message): Book
    requires fd < |b.queues|
  {
    b.(queues := b.queues[fd := b.queues[fd] + [m]], wfds := b.wfds + {fd})
  }

  /** The same message to several descriptors. */
  function EnqueueAll(b: Book, fds: set<nat>, m: Message): Book {
    b.(queues := seq(|b.queues|, i requires 0 <= i < |b.queues| => if i in fds then b.queues[i] + [m] else b.queues[i]),
       wfds := b.wfds + fds)
  }

  function Forget(b: Book, fd: nat, uid: nat): Book {
    b.(uidOf := b.uidOf - {fd}, fdOf := b.fdOf - {uid})
  }

  function Enlist(b: Book, fd: nat, uid: nat): Book {
    b.(uidOf := b.uidOf[fd := uid], fdOf := b.fdOf[uid := fd])
  }

  /** close_conn: the user goes offline, the others are told, the queue is dropped. */
  function CloseConn(b: Book, fd: nat): Book
    requires fd < |b.queues|
  {
    var b1 := if fd in b.uidOf
              then var out := Forget(b, fd, b.uidOf[fd]); EnqueueAll(out, out.uidOf.Keys, Presence(b.uidOf[fd], false))
              else b;
    b1.(queues := b1.queues[fd := []], wfds := b1.wfds - {fd})
  }

  // ----- sending

  datatype SendResult = SendFailed | SendPart | SendWhole

  /** send_msg: what becomes of the connection, and the book.  A message that is too long for its header
      fails the assertion of send_data, once the header is sent. */
  function Send(b: Book, fd: nat, r: SendResult): (sent: (Verdict, Book))
    requires fd < |b.queues| && b.queues[fd] != []
    ensures |sent.1.queues| == |b.queues|
  {
    match r
    case SendFailed => (Drop, b)
    case SendPart => (Keep, b)
    case SendWhole =>
      if IsLast(b.queues[fd][0]) then (Drop, b)
      else if TooLong(b.queues[fd][0]) then (Abort, b)
      else
        var rest := b.queues[fd][1..];
        (Keep, b.(queues := b.queues[fd := rest], wfds := if rest == [] then b.wfds - {fd} else b.wfds))
  }

  // ----- receiving

  /** Abort: the process ends, by an assertion that does not hold, an exception that nothing catches, or
      reading where there is nothing.  Overrun: a list is written past the end of its message. */
  datatype Verdict = Keep | Drop | Abort | Overrun

  /** The assertion at the head of every handler for users that are logged in. */
  predicate IsMember(b: Book, fd: nat) {
    fd in b.uidOf && b.uidOf[fd] in b.fdOf && b.fdOf[b.uidOf[fd]] == fd
  }

  /** The user's earlier connection is told to shut down and loses the user. */
  function KickOut(b: Book, uid: nat): (b': Book)
    requires uid in b.fdOf && b.fdOf[uid] < |b.queues|
    ensures |b'.queues| == |b.queues|
  {
    Forget(Enqueue(b, b.fdOf[uid], SHUTDOWN), b.fdOf[uid], uid)
  }

  /** The users of the list, without uid, that are online, or that are not. */
  function Listed(everyone: seq<nat>, uid: nat, users: set<nat>, online: bool): seq<nat> {
    if everyone == [] then []
    else
      (if everyone[0] != uid && (everyone[0] in users) == online then [everyone[0]] else []) +
      Listed(everyone[1..], uid, users, online)
  }

  lemma ListedNext(everyone: seq<nat>, k: nat, uid: nat, users: set<nat>, online: bool)
    requires k < |everyone|
    ensures Listed(everyone[k..], uid, users, online) ==
            (if everyone[k] != uid && (everyone[k] in users) == online then [everyone[k]] else []) +
            Listed(everyone[k + 1..], uid, users, online)
  {}

  /** The size of one list is taken from the users online, of the other from what is left of the users
      in the database; below zero it is no size that a message can have. */
  predicate TooFew(everyone: seq<nat>, users: set<nat>) {
    |everyone| < |users|
  }

  /** A list has more users than it has room for. */
  predicate Overfull(everyone: seq<nat>, uid: nat, users: set<nat>) {
    || |Listed(everyone, uid, users, true)| > |users| - 1
    || |Listed(everyone, uid, users, false)| > |everyone| - |users|
  }

  /** A list in a message of the given size; what it leaves over is zero. */
  function Filled(uids: seq<nat>, size: int): seq<nat> {
    uids + if |uids| <= size then seq(size - |uids|, _ => 0) else []
  }

  /** The two messages of push_userlist. */
  function Lists(everyone: seq<nat>, uid: nat, users: set<nat>): (lists: seq<Message>)
    ensures |lists| == 2
  {
    [UserList(Filled(Listed(everyone, uid, users, true), |users| - 1), true),
     UserList(Filled(Listed(everyone, uid, users, false), |everyone| - |users|), false)]
  }

  /** The users online are told of a new one, which gets the two lists of users. */
  function Welcome(b: Book, fd: nat, uid: nat, everyone: seq<nat>): (b': Book)
    requires fd < |b.queues|
    ensures |b'.queues| == |b.queues|
  {
    var b1 := Enlist(EnqueueAll(b, b.uidOf.Keys, Presence(uid, true)), fd, uid);
    var lists := Lists(everyone, uid, b1.fdOf.Keys);
    Enqueue(Enqueue(b1, fd, lists[0]), fd, lists[1])
  }

  /** parse_login. */
  function LogIn(b: Book, fd: nat, uid: nat, legal: bool, first: bool, color: nat, everyone: seq<nat>)
    : (r: (Verdict, Book))
    requires fd < |b.queues|
    requires forall u :: u in b.fdOf ==> b.fdOf[u] < |b.queues|
    ensures r.0 != Drop && |r.1.queues| == |b.queues|
  {
    var again := legal && !first && uid in b.fdOf;
    var b1 := if again then KickOut(b, uid) else b;
    var b2 := Enqueue(b1, fd, LoginReply(legal, first, again, Account(uid, color)));
    var users := b.fdOf.Keys + {uid};
    if fd in b2.uidOf then (Abort, b2)
    else if !legal then (Keep, b2)
    else if uid in b2.uidOf.Values || TooFew(everyone, users) then (Abort, b2)
    else if Overfull(everyone, uid, users) then (Overrun, b2)
    else (Keep, Welcome(b2, fd, uid, everyone))
  }

  /** push_textmsg. */
  function PassText(b: Book, src: nat, dst: nat, m: Message): (r: (Verdict, Book))
    requires forall u :: u in b.fdOf ==> b.fdOf[u] < |b.queues|
    ensures |r.1.queues| == |b.queues|
  {
    if dst == EVERYBODY then (Keep, EnqueueAll(b, (set fd | fd in b.uidOf && b.uidOf[fd] != src), m))
    else if dst in b.fdOf then (Keep, Enqueue(b, b.fdOf[dst], m))
    else (Abort, b)
  }

  /** parse_textmsg. */
  function TakeText(b: Book, fd: nat, public: bool, dst: nat, text: seq<byte>, checked: bool, found: bool, saved: bool)
    : (r: (Verdict, Book))
    requires fd < |b.queues|
    requires forall u :: u in b.fdOf ==> b.fdOf[u] < |b.queues|
    ensures r.0 != Drop && |r.1.queues| == |b.queues|
  {
    if !IsMember(b, fd) then (Abort, b)
    else if (!public && !checked) || !saved then (Keep, Enqueue(b, fd, TextReply(0xFF)))
    else
      var exist := if public then dst == EVERYBODY else found;
      var online := public || dst in b.fdOf;
      var b1 := Enqueue(b, fd, TextReply(if !exist then 0xF0 else if !online then 0xF1 else 0x00));
      if online then PassText(b1, b.uidOf[fd], dst, TextFrom(b.uidOf[fd], public, text)) else (Keep, b1)
  }

  /** recv_msg. */
  function Receive(b: Book, fd: nat, req: Request): (r: (Verdict, Book))
    requires fd < |b.queues|
    requires forall u :: u in b.fdOf ==> b.fdOf[u] < |b.queues|
    ensures |r.1.queues| == |b.queues|
  {
    match req
    case Hangup => (Drop, b)
    case Incomplete => (Keep, b)
    case Answered(reply, membersOnly) =>
      if membersOnly && !IsMember(b, fd) then (Abort, b) else (Keep, Enqueue(b, fd, reply))
    case Login(uid, legal, first, color, everyone) => LogIn(b, fd, uid, legal, first, color, everyone)
    case Text(public, dst, text, checked, found, saved) => TakeText(b, fd, public, dst, text, checked, found, saved)
    case Relay(m, dst) =>
      if IsMember(b, fd) && dst in b.fdOf then (Keep, Enqueue(b, b.fdOf[dst], m)) else (Abort, b)
    case ShortText(public, checked) =>
      if IsMember(b, fd) && !public && !checked then (Keep, Enqueue(b, fd, TextReply(0xFF))) else (Abort, b)
    case Broken => (Abort, b)
  }

  // ----- what the operations keep

  /** Every queue has only grown, at its end. */
  predicate Appends(b: Book, b': Book) {
    |b.queues| == |b'.queues| && forall fd :: 0 <= fd < |b.queues| ==> b.queues[fd] <= b'.queues[fd]
  }

  lemma NewBookConsistent()
    ensures Consistent(NewBook(), {})
  {}

  lemma EnqueueConsistent(b: Book, clients: set<nat>, fd: nat, m: Message)
    requires Consistent(b, clients) && fd in clients
    ensures Consistent(Enqueue(b, fd, m), clients) && b.wfds <= Enqueue(b, fd, m).wfds && Appends(b, Enqueue(b, fd, m))
  {}

  lemma EnqueueAllConsistent(b: Book, clients: set<nat>, fds: set<nat>, m: Message)
    requires Consistent(b, clients) && fds <= clients
    ensures Consistent(EnqueueAll(b, fds, m), clients)
    ensures b.wfds <= EnqueueAll(b, fds, m).wfds && Appends(b, EnqueueAll(b, fds, m))
  {}

  lemma ForgetConsistent(b: Book, clients: set<nat>, fd: nat, uid: nat)
    requires Consistent(b, clients) && fd in b.uidOf && b.uidOf[fd] == uid
    ensures Consistent(Forget(b, fd, uid), clients)
  {}

  lemma EnlistConsistent(b: Book, clients: set<nat>, fd: nat, uid: nat)
    requires Consistent(b, clients) && fd in clients
    requires fd !in b.uidOf && uid !in b.uidOf.Values
    ensures Consistent(Enlist(b, fd, uid), clients)
  {}

  /** close_conn leaves a book that is consistent without the closed descriptor. */
  lemma CloseConsistent(b: Book, clients: set<nat>, fd: nat)
    requires Consistent(b, clients) && fd in clients
    ensures Consistent(CloseConn(b, fd), clients - {fd})
    ensures b.wfds - {fd} <= CloseConn(b, fd).wfds
  {
    if fd in b.uidOf {
      var out := Forget(b, fd, b.uidOf[fd]);
      ForgetConsistent(b, clients, fd, b.uidOf[fd]);
      var m := Presence(b.uidOf[fd], false);
      EnqueueAllConsistent(out, clients, out.uidOf.Keys, m);
      DropQueueConsistent(EnqueueAll(out, out.uidOf.Keys, m), clients, fd);
    } else {
      DropQueueConsistent(b, clients, fd);
    }
  }

  lemma DropQueueConsistent(b: Book, clients: set<nat>, fd: nat)
    requires Consistent(b, clients) && fd in clients && fd !in b.uidOf
    ensures Consistent(b.(queues := b.queues[fd := []], wfds := b.wfds - {fd}), clients - {fd})
  {}

  lemma SendConsistent(b: Book, clients: set<nat>, fd: nat, r: SendResult)
    requires Consistent(b, clients) && fd in b.wfds
    ensures Consistent(Send(b, fd, r).1, clients)
    ensures b.wfds - {fd} <= Send(b, fd, r).1.wfds
    ensures Send(b, fd, r).0 != Keep ==> Send(b, fd, r).1 == b
    ensures forall f: nat :: f < |b.queues| && f != fd ==> Send(b, fd, r).1.queues[f] == b.queues[f]
    ensures var m := b.queues[fd][0];
            var done := r == SendWhole && !IsLast(m) && !TooLong(m);
            Send(b, fd, r).1.queues[fd] == b.queues[fd][if done then 1 else 0..]
  {}

  lemma KickOutConsistent(b: Book, clients: set<nat>, uid: nat)
    requires Consistent(b, clients) && uid in b.fdOf
    ensures var b' := KickOut(b, uid);
            Consistent(b', clients) && b.wfds <= b'.wfds && Appends(b, b')
  {}

  lemma WelcomeConsistent(b: Book, clients: set<nat>, fd: nat, uid: nat, everyone: seq<nat>)
    requires Consistent(b, clients) && fd in clients && fd !in b.uidOf && uid !in b.uidOf.Values
    ensures var b' := Welcome(b, fd, uid, everyone);
            Consistent(b', clients) && b.wfds <= b'.wfds && Appends(b, b')
  {
    hide Consistent, Lists;
    EnqueueAllInRange(b, clients, fd);
    var told := EnqueueAll(b, b.uidOf.Keys, Presence(uid, true));
    EnqueueAllConsistent(b, clients, b.uidOf.Keys, Presence(uid, true));
    EnlistConsistent(told, clients, fd, uid);
    var b1 := Enlist(told, fd, uid);
    var lists := Lists(everyone, uid, b1.fdOf.Keys);
    EnqueueConsistent(b1, clients, fd, lists[0]);
    EnqueueConsistent(Enqueue(b1, fd, lists[0]), clients, fd, lists[1]);
  }

  lemma EnqueueAllInRange(b: Book, clients: set<nat>, fd: nat)
    requires Consistent(b, clients) && fd in clients
    ensures b.uidOf.Keys <= clients && fd < |b.queues|
  {}

  /** A login that passes the assertions keeps the book consistent. */
  lemma LogInConsistent(b: Book, clients: set<nat>, fd: nat,
                        uid: nat, legal: bool, first: bool, color: nat, everyone: seq<nat>)
    requires Consistent(b, clients) && fd in clients
    requires LogIn(b, fd, uid, legal, first, color, everyone).0 == Keep
    ensures var b' := LogIn(b, fd, uid, legal, first, color, everyone).1;
            Consistent(b', clients) && b.wfds <= b'.wfds && Appends(b, b')
  {
    hide KickOut, Welcome, Enqueue, TooFew, Overfull;
    var again := legal && !first && uid in b.fdOf;
    var b1 := b;
    if again {
      KickOutConsistent(b, clients, uid);
      b1 := KickOut(b, uid);
    }
    var reply := LoginReply(legal, first, again, Account(uid, color));
    EnqueueConsistent(b1, clients, fd, reply);
    if legal {
      WelcomeConsistent(Enqueue(b1, fd, reply), clients, fd, uid, everyone);
    }
  }

  lemma TakeTextConsistent(b: Book, clients: set<nat>, fd: nat, public: bool, dst: nat, text: seq<byte>,
                           checked: bool, found: bool, saved: bool)
    requires Consistent(b, clients) && fd in clients
    requires TakeText(b, fd, public, dst, text, checked, found, saved).0 != Abort
    ensures var b' := TakeText(b, fd, public, dst, text, checked, found, saved).1;
            Consistent(b', clients) && b.wfds <= b'.wfds && Appends(b, b')
  {
    EnqueueConsistent(b, clients, fd, TextReply(0xFF));
    var exist := if public then dst == EVERYBODY else found;
    var online := public || dst in b.fdOf;
    var reply := TextReply(if !exist then 0xF0 else if !online then 0xF1 else 0x00);
    EnqueueConsistent(b, clients, fd, reply);
    PassTextConsistent(Enqueue(b, fd, reply), clients, b.uidOf[fd], dst, TextFrom(b.uidOf[fd], public, text));
  }

  lemma PassTextConsistent(b: Book, clients: set<nat>, src: nat, dst: nat, m: Message)
    requires Consistent(b, clients)
    ensures PassText(b, src, dst, m).0 != Abort ==>
              && Consistent(PassText(b, src, dst, m).1, clients)
              && b.wfds <= PassText(b, src, dst, m).1.wfds
              && Appends(b, PassText(b, src, dst, m).1)
  {
    if dst == EVERYBODY {
      EnqueueAllConsistent(b, clients, (set fd | fd in b.uidOf && b.uidOf[fd] != src), m);
    } else if dst in b.fdOf {
      EnqueueConsistent(b, clients, b.fdOf[dst], m);
    }
  }

  /** Whatever a client sends, unless the process ends, recv_msg leaves a consistent book, with no
      descriptor taken out of the writable set and messages only added at the ends of the queues; and
      it changes nothing when it gives up the client. */
  lemma ReceiveConsistent(b: Book, clients: set<nat>, fd: nat, req: Request)
    requires Consistent(b, clients) && fd in clients
    requires Receive(b, fd, req).0 == Keep || Receive(b, fd, req).0 == Drop
    ensures Consistent(Receive(b, fd, req).1, clients)
    ensures b.wfds <= Receive(b, fd, req).1.wfds && Appends(b, Receive(b, fd, req).1)
    ensures Receive(b, fd, req).0 == Drop ==> Receive(b, fd, req).1 == b
  {
    hide LogIn, TakeText, Enqueue, EnqueueAll;
    match req
    case Hangup =>
    case Incomplete =>
    case Answered(reply, membersOnly) =>
      EnqueueConsistent(b, clients, fd, reply);
    case Login(uid, legal, first, color, everyone) =>
      LogInConsistent(b, clients, fd, uid, legal, first, color, everyone);
    case Text(public, dst, text, checked, found, saved) =>
      TakeTextConsistent(b, clients, fd, public, dst, text, checked, found, saved);
    case Relay(m, dst) =>
      EnqueueConsistent(b, clients, b.fdOf[dst], m);
    case ShortText(_, _) =>
      EnqueueConsistent(b, clients, fd, TextReply(0xFF));
    case Broken =>
  }

  // ----- when the process ends

  /** A login passes the assertions if and only if its descriptor is logged in as nobody, or is the very
      one that the user moves from, and a user's first login finds the user nowhere online; and it goes
      through if and only if, besides, the lists of users have room for what is written to them. */
  lemma LogInPasses(b: Book, clients: set<nat>, fd: nat,
                    uid: nat, legal: bool, first: bool, color: nat, everyone: seq<nat>)
    requires Consistent(b, clients) && fd in clients
    ensures var v := LogIn(b, fd, uid, legal, first, color, everyone).0;
            var passes := (fd in b.uidOf ==> legal && !first && b.uidOf[fd] == uid) &&
                          (legal && first ==> uid !in b.fdOf);
            var users := b.fdOf.Keys + {uid};
            && (v == Abort <==> !passes || (legal && TooFew(everyone, users)))
            && (v == Overrun <==> passes && legal && !TooFew(everyone, users) && Overfull(everyone, uid, users))
  {
    hide Welcome, TooFew, Overfull;
  }

  /** The requests that end the process: one for users only from a client that is not logged in; a
      second login on a descriptor that does not move its own user; a first login of a user that is
      online; a login when the database gives fewer users than are then online; a public text, saved, to
      a single user that is not online; a message to be passed on to a user that is not online; a text
      too short to hold its receiver, unless the database refuses it before that matters; and a message
      of the wrong size or with nothing to read. */
  predicate Fatal(b: Book, fd: nat, req: Request) {
    match req
    case Hangup => false
    case Incomplete => false
    case Answered(_, membersOnly) => membersOnly && fd !in b.uidOf
    case Login(uid, legal, first, _, everyone) =>
      || (fd in b.uidOf && !(legal && !first && b.uidOf[fd] == uid))
      || (legal && first && uid in b.fdOf)
      || (legal && TooFew(everyone, b.fdOf.Keys + {uid}))
    case Text(public, dst, _, _, _, saved) =>
      fd !in b.uidOf || (public && saved && dst != EVERYBODY && dst !in b.fdOf)
    case Relay(_, dst) => fd !in b.uidOf || dst !in b.fdOf
    case ShortText(public, checked) => fd !in b.uidOf || public || checked
    case Broken => true
  }

  /** The requests that write a list past the end of its message: a login that is not fatal, when the
      database gives more users that are offline than it has room for. */
  predicate Overruns(b: Book, fd: nat, req: Request) {
    req.Login? && req.legal && !Fatal(b, fd, req) && Overfull(req.everyone, req.uid, b.fdOf.Keys + {req.uid})
  }

  /** Whatever a client sends in a consistent state: it ends the process if and only if it is one of
      the fatal requests, and overruns a list if and only if it is one of those; it is given up only
      if nothing can be read. */
  lemma ReceiveAborts(b: Book, clients: set<nat>, fd: nat, req: Request)
    requires Consistent(b, clients) && fd in clients
    ensures Receive(b, fd, req).0 == Abort <==> Fatal(b, fd, req)
    ensures Receive(b, fd, req).0 == Overrun <==> Overruns(b, fd, req)
    ensures Receive(b, fd, req).0 == Drop <==> req.Hangup?
  {
    hide LogIn, TooFew, Overfull;
    match req
    case Login(uid, legal, first, color, everyone) =>
      LogInPasses(b, clients, fd, uid, legal, first, color, everyone);
    case _ =>
  }

  /** Texts and file messages without a body, or with one too short: what ends the process. */
  lemma BodylessMessages(b: Book, clients: set<nat>, fd: nat, head: seq<byte>, body: seq<byte>, used: bool, db: Db)
    requires Consistent(b, clients) && fd in clients && |head| == HEADER
    ensures head[0] == 0x13 && head[1] <= 0x01 && |body| < 4 ==>
              (Fatal(b, fd, Parse(head, body, used, db)) <==>
                 body == [] || fd !in b.uidOf || head[1] == 0x01 || db.checked)
    ensures head[0] == 0x19 && body == [] ==> (Fatal(b, fd, Parse(head, body, used, db)) <==> !used)
  {}

  // ----- who is told what

  /** What closing fd adds to the queue of f. */
  function ToldByClose(b: Book, fd: nat, f: nat): seq<Message> {
    if fd in b.uidOf && f in b.uidOf && f != fd then [Presence(b.uidOf[fd], false)] else []
  }

  /** What a login adds to the queue of f: its descriptor gets the answer, and if the login succeeds
      the two lists; the other users are told who came; the descriptor that held the user is told to
      shut down, and nothing more unless it is the same one. */
  function ToldByLogIn(b: Book, fd: nat, uid: nat, legal: bool, first: bool, color: nat, everyone: seq<nat>,
                       f: nat): seq<Message> {
    var again := legal && !first && uid in b.fdOf;
    var shutdown := if again && f == b.fdOf[uid] then [SHUTDOWN] else [];
    if f == fd then
      var users := b.fdOf.Keys + {uid};
      shutdown + [LoginReply(legal, first, again, Account(uid, color))] +
      if legal then Lists(everyone, uid, users) else []
    else if again && f == b.fdOf[uid] then shutdown
    else if legal && f in b.uidOf then [Presence(uid, true)]
    else []
  }

  /** What a text adds to the queue of f: the sender gets one answer, which says whether the text was
      refused, and whether the receiver exists and is online; a text to 0xFFFF that goes out reaches
      every user but its sender once, any other text its one receiver once, if online. */
  function ToldByText(b: Book, fd: nat, public: bool, dst: nat, text: seq<byte>,
                      checked: bool, found: bool, saved: bool, f: nat): seq<Message>
    requires fd in b.uidOf
  {
    if (!public && !checked) || !saved then (if f == fd then [TextReply(0xFF)] else [])
    else
      var exist := if public then dst == EVERYBODY else found;
      var online := public || dst in b.fdOf;
      var receives := online && f in b.uidOf && if dst == EVERYBODY then f != fd else b.uidOf[f] == dst;
      (if f == fd then [TextReply(if !exist then 0xF0 else if !online then 0xF1 else 0x00)] else []) +
      (if receives then [TextFrom(b.uidOf[fd], public, text)] else [])
  }

  /** What a request of fd adds to the queue of f. */
  function ToldByRequest(b: Book, fd: nat, req: Request, f: nat): seq<Message>
    requires !Fatal(b, fd, req)
  {
    match req
    case Hangup => []
    case Incomplete => []
    case Answered(reply, _) => if f == fd then [reply] else []
    case Login(uid, legal, first, color, everyone) => ToldByLogIn(b, fd, uid, legal, first, color, everyone, f)
    case Text(public, dst, text, checked, found, saved) =>
      ToldByText(b, fd, public, dst, text, checked, found, saved, f)
    case Relay(m, dst) => if f == b.fdOf[dst] then [m] else []
    case ShortText(_, _) => if f == fd then [TextReply(0xFF)] else []
  }

  /** When a client is closed, its queue is dropped and it is logged out; every other user is told
      once who went offline, if it was logged in, and nobody else hears anything. */
  lemma CloseTells(b: Book, clients: set<nat>, fd: nat)
    requires Consistent(b, clients) && fd in clients
    ensures var b' := CloseConn(b, fd);
            && |b'.queues| == |b.queues| && b'.queues[fd] == []
            && b'.uidOf == b.uidOf - {fd}
            && forall f: nat :: f < |b.queues| && f != fd ==> b'.queues[f] == b.queues[f] + ToldByClose(b, fd, f)
  {}

  lemma OneDescriptorEach(b: Book, clients: set<nat>, uid: nat)
    requires Consistent(b, clients)
    ensures forall fd :: fd in clients ==> fd < |b.queues|
    ensures forall u :: u in b.fdOf ==> b.fdOf[u] < |b.queues|
    ensures forall f :: f in b.uidOf && b.uidOf[f] == uid ==> uid in b.fdOf && f == b.fdOf[uid]
    ensures uid in b.fdOf <==> uid in b.uidOf.Values
  {}

  lemma KickOutTells(b: Book, clients: set<nat>, uid: nat)
    requires Consistent(b, clients) && uid in b.fdOf
    ensures var b' := KickOut(b, uid);
            && b'.uidOf == b.uidOf - {b.fdOf[uid]} && uid !in b'.uidOf.Values
            && b'.fdOf == b.fdOf - {uid}
            && forall f: nat :: f < |b.queues| ==>
                 b'.queues[f] == b.queues[f] + if f == b.fdOf[uid] then [SHUTDOWN] else []
  {}

  lemma WelcomeTells(b: Book, fd: nat, uid: nat, everyone: seq<nat>)
    requires fd < |b.queues| && fd !in b.uidOf
    ensures var b' := Welcome(b, fd, uid, everyone);
            var users := b.fdOf.Keys + {uid};
            && b'.uidOf == b.uidOf[fd := uid] && |b'.queues| == |b.queues|
            && (forall f: nat :: f < |b.queues| && f != fd ==>
                  b'.queues[f] == b.queues[f] + if f in b.uidOf then [Presence(uid, true)] else [])
            && b'.queues[fd] == b.queues[fd] + Lists(everyone, uid, users)
  {
    hide Lists;
    assert b.fdOf[uid := fd].Keys == b.fdOf.Keys + {uid};
  }

  /** A login that succeeds: the user is logged in on the new descriptor and on no other, all other
      users stay logged in, and the queues grow as ToldByLogIn says. */
  lemma LogInTells(b: Book, clients: set<nat>, fd: nat, uid: nat, first: bool, color: nat, everyone: seq<nat>)
    requires Consistent(b, clients) && fd in clients
    requires LogIn(b, fd, uid, true, first, color, everyone).0 == Keep
    ensures var b' := LogIn(b, fd, uid, true, first, color, everyone).1;
            var other := if uid in b.fdOf then {b.fdOf[uid]} else {};
            && b'.uidOf == (b.uidOf - other)[fd := uid]
            && (forall f :: f in b'.uidOf && b'.uidOf[f] == uid ==> f == fd)
            && |b'.queues| == |b.queues|
            && forall f: nat :: f < |b.queues| ==>
                 b'.queues[f] == b.queues[f] + ToldByLogIn(b, fd, uid, true, first, color, everyone, f)
  {
    hide KickOut, Welcome, Consistent, Lists, TooFew, Overfull;
    OneDescriptorEach(b, clients, uid);
    if uid in b.fdOf {
      KickOutTells(b, clients, uid);
    }
    var again := !first && uid in b.fdOf;
    var b1 := if again then KickOut(b, uid) else b;
    var reply := LoginReply(true, first, again, Account(uid, color));
    WelcomeTells(Enqueue(b1, fd, reply), fd, uid, everyone);
    assert b1.fdOf.Keys + {uid} == b.fdOf.Keys + {uid};
  }

  /** The users of the database. */
  function Known(everyone: seq<nat>): (known: set<nat>)
    ensures forall u :: u in known <==> u in everyone
  {
    if everyone == [] then {} else Known(everyone[1..]) + {everyone[0]}
  }

  predicate Distinct(everyone: seq<nat>) {
    everyone == [] || (everyone[0] !in everyone[1..] && Distinct(everyone[1..]))
  }

  lemma {:induction false} ListedSize(everyone: seq<nat>, uid: nat, users: set<nat>)
    requires Distinct(everyone) && uid in users
    ensures |Known(everyone)| == |everyone|
    ensures |Listed(everyone, uid, users, true)| == |Known(everyone) * users - {uid}|
    ensures |Listed(everyone, uid, users, false)| == |Known(everyone) - users|
  {
    if everyone != [] {
      ListedSize(everyone[1..], uid, users);
      OneMore(Known(everyone[1..]), everyone[0], uid, users);
    }
  }

  lemma OneMore(fewer: set<nat>, u: nat, uid: nat, users: set<nat>)
    requires u !in fewer && uid in users
    ensures |fewer + {u}| == |fewer| + 1
    ensures |(fewer + {u}) * users - {uid}| == |fewer * users - {uid}| + if u in users && u != uid then 1 else 0
    ensures |(fewer + {u}) - users| == |fewer - users| + if u in users then 0 else 1
  {
    var all := fewer + {u};
    if u !in users {
      assert all * users - {uid} == fewer * users - {uid};
      assert all - users == (fewer - users) + {u};
    } else if u == uid {
      assert all * users - {uid} == fewer * users - {uid};
      assert all - users == fewer - users;
    } else {
      assert all * users - {uid} == (fewer * users - {uid}) + {u};
      assert all - users == fewer - users;
    }
  }

  /** The database lists every user once.  Then a login that does not end the process overruns a list if
      and only if the database misses a user that is online; and otherwise both lists are exactly as
      long as their messages. */
  lemma ListsFill(everyone: seq<nat>, uid: nat, users: set<nat>)
    requires Distinct(everyone) && uid in users && !TooFew(everyone, users)
    ensures Overfull(everyone, uid, users) <==> exists u :: u in users && u !in everyone
    ensures !Overfull(everyone, uid, users) ==>
              Lists(everyone, uid, users) ==
              [UserList(Listed(everyone, uid, users, true), true), UserList(Listed(everyone, uid, users, false), false)]
  {
    hide Listed, Known;
    ListedSize(everyone, uid, users);
    var all := Known(everyone);
    CountsTell(all, uid, users);
    assert users <= all <==> forall u :: u in users ==> u in everyone;
    if users <= all {
      var online, offline := Listed(everyone, uid, users, true), Listed(everyone, uid, users, false);
      assert Filled(online, |users| - 1) == online && Filled(offline, |everyone| - |users|) == offline;
    }
  }

  lemma CountsTell(all: set<nat>, uid: nat, users: set<nat>)
    requires uid in users
    ensures |all * users - {uid}| <= |users| - 1
    ensures users <= all ==> |all * users - {uid}| == |users| - 1 && |all - users| == |all| - |users|
    ensures !(users <= all) ==> |all - users| > |all| - |users|
  {
    SubsetSize(all * users - {uid}, users - {uid});
    assert all - users == all - all * users;
    if users <= all {
      assert all * users == users;
    } else {
      assert |users - all * users| > 0;
    }
  }

  /** A text that does not end the process: the queues grow as ToldByText says, and nobody is logged
      in or out. */
  lemma TextTells(b: Book, clients: set<nat>, fd: nat, public: bool, dst: nat, text: seq<byte>,
                  checked: bool, found: bool, saved: bool)
    requires Consistent(b, clients) && fd in clients
    requires TakeText(b, fd, public, dst, text, checked, found, saved).0 == Keep
    ensures var b' := TakeText(b, fd, public, dst, text, checked, found, saved).1;
            && fd in b.uidOf && b'.uidOf == b.uidOf && |b'.queues| == |b.queues|
            && forall f: nat :: f < |b.queues| ==>
                 b'.queues[f] == b.queues[f] + ToldByText(b, fd, public, dst, text, checked, found, saved, f)
  {}

  /** Whatever a client sends, unless it ends the process: every queue grows by exactly what the
      request says for it. */
  lemma ReceiveTells(b: Book, clients: set<nat>, fd: nat, req: Request)
    requires Consistent(b, clients) && fd in clients && !Fatal(b, fd, req) && !Overruns(b, fd, req)
    ensures var b' := Receive(b, fd, req).1;
            && |b'.queues| == |b.queues|
            && forall f: nat :: f < |b.queues| ==> b'.queues[f] == b.queues[f] + ToldByRequest(b, fd, req, f)
  {
    hide LogIn, TakeText, ToldByText, ToldByLogIn, Overfull, TooFew;
    ReceiveAborts(b, clients, fd, req);
    match req
    case Login(uid, legal, first, color, everyone) => {
      if legal {
        LogInTells(b, clients, fd, uid, first, color, everyone);
      } else {
        IllegalTells(b, fd, uid, first, color, everyone);
      }
    }
    case Text(public, dst, text, checked, found, saved) => {
      TextTells(b, clients, fd, public, dst, text, checked, found, saved);
    }
    case _ =>
  }

  lemma IllegalTells(b: Book, fd: nat, uid: nat, first: bool, color: nat, everyone: seq<nat>)
    requires fd < |b.queues| && forall u :: u in b.fdOf ==> b.fdOf[u] < |b.queues|
    ensures LogIn(b, fd, uid, false, first, color, everyone).1 ==
            Enqueue(b, fd, LoginReply(false, first, false, Account(uid, color)))
    ensures forall f: nat :: ToldByLogIn(b, fd, uid, false, first, color, everyone, f) ==
                             if f == fd then [LoginReply(false, first, false, Account(uid, color))] else []
  {
    hide Lists, Welcome;
  }
}
