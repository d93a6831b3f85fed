/** Classes Connections and TCPServer of the server, and the kernel they talk to. */
module TcpServer {
  import opened Descriptors
  import opened Messages
  import opened Requests
  import opened Sessions
  import opened Lines
  import opened Server
  import Protocol
  import PartialIo
  import Framing
  import MessageIo

  /** Connections of server/Connections.h.  Between calls a Conn is a value, its queue and its line; a
      call reads or writes with the object made from it. */
  class Connections {
    var queues: seq<seq<Message>>
    var lines: seq<Line>
    var wfds: set<nat>
    var uidOf: map<nat, nat>
    var fdOf: map<nat, nat>

    function View(): Book
      reads this
    {
      Book(queues, wfds, uidOf, fdOf)
    }

    constructor ()
      ensures View() == NewBook() && lines == StartState(0, {}).lines
    {
      queues := seq(FD_SETSIZE, _ => []);
      lines := seq(FD_SETSIZE, _ => Idle(false));
      wfds, uidOf, fdOf := {}, map[], map[];
    }

    method Push(fd: nat, m: Message)
      requires fd < |queues|
      modifies this`queues, this`wfds
      ensures View() == Enqueue(old(View()), fd, m)
    {
      queues := queues[fd := queues[fd] + [m]];
      wfds := wfds + {fd};
    }

    /** A loop over some of the descriptors of the users that are logged in. */
    method PushAll(fds: set<nat>, m: Message)
      requires forall fd :: fd in fds ==> fd < |queues|
      modifies this`queues, this`wfds
      ensures View() == EnqueueAll(old(View()), fds, m)
    {
      ghost var b := View();
      var todo := fds;
      while todo != {}
        invariant todo <= fds
        invariant |queues| == |b.queues| && uidOf == b.uidOf && fdOf == b.fdOf
        invariant wfds == b.wfds + (fds - todo)
        invariant forall i :: 0 <= i < |queues| ==>
                    queues[i] == if i in fds - todo then b.queues[i] + [m] else b.queues[i]
        decreases todo
      {
        var fd :| fd in todo;
        Push(fd, m);
        todo := todo - {fd};
      }
      assert queues == EnqueueAll(b, fds, m).queues;
    }

    method CloseConn(fd: nat)
      requires fd < |queues| && fd < |lines|
      requires fd in uidOf ==> uidOf[fd] in fdOf && fdOf[uidOf[fd]] == fd
      requires forall f :: f in uidOf ==> f < |queues|
      modifies this
      ensures View() == Sessions.CloseConn(old(View()), fd)
      ensures lines == old(lines)[fd := Line(Framing.Header([]), [], old(lines[fd]).used, true, 0)]
    {
      if fd in uidOf {
        var uid := uidOf[fd];
        uidOf := uidOf - {fd};
        fdOf := fdOf - {uid};
        PushAll(uidOf.Keys, Presence(uid, false));
      }
      lines := lines[fd := Idle(lines[fd].used)];
      queues := queues[fd := []];
      wfds := wfds - {fd};
    }

    method ParseLogin(fd: nat, uid: nat, legal: bool, first: bool, color: nat, everyone: seq<nat>)
      returns (v: Verdict)
      requires fd < |queues|
      requires forall u :: u in fdOf ==> fdOf[u] < |queues|
      requires forall f :: f in uidOf ==> f < |queues|
      modifies this`queues, this`wfds, this`uidOf, this`fdOf
      ensures v == LogIn(old(View()), fd, uid, legal, first, color, everyone).0
      ensures v == Keep ==> View() == LogIn(old(View()), fd, uid, legal, first, color, everyone).1
    {
      hide Lists, TooFew, Overfull;
      ghost var users := fdOf.Keys + {uid};
      var msg := Message(0x90, 0x00, NoData);
      if !legal {
        msg := msg.(sub := 0xF0);
      } else {
        msg := msg.(payload := Account(uid, color));
        if first {
          msg := msg.(sub := 0x01);
        } else if uid in fdOf {
          var otherFd := fdOf[uid];
          msg := msg.(sub := 0x02);
          Push(otherFd, SHUTDOWN);
          uidOf := uidOf - {otherFd};
          fdOf := fdOf - {uid};
        }
      }
      Push(fd, msg);
      if fd in uidOf {
        return Abort;
      }
      if legal {
        if uid in uidOf.Values {
          return Abort;
        }
        PushAll(uidOf.Keys, Presence(uid, true));
        fdOf := fdOf[uid := fd];
        uidOf := uidOf[fd := uid];
        assert fdOf.Keys == users;
        v := PushUserlist(fd, everyone);
        return;
      }
      return Keep;
    }

    /** push_userlist: the sizes of the two lists first, where a size below zero throws; then one pass
        over the users of the database fills both, and stops at the first that has no room. */
    method PushUserlist(fd: nat, everyone: seq<nat>) returns (v: Verdict)
      requires fd < |queues| && fd in uidOf && uidOf[fd] in fdOf
      modifies this`queues, this`wfds
      ensures v == if TooFew(everyone, fdOf.Keys) then Abort
                   else if Overfull(everyone, old(uidOf[fd]), fdOf.Keys) then Overrun else Keep
      ensures var lists := Lists(everyone, old(uidOf[fd]), fdOf.Keys);
              v == Keep ==> View() == Enqueue(Enqueue(old(View()), fd, lists[0]), fd, lists[1])
    {
      hide Listed;
      var uid := uidOf[fd];
      ghost var users := fdOf.Keys;
      assert users >= {uid};
      SubsetSize({uid}, users);
      var lenOnline, lenOffline := |fdOf.Keys| - 1, |everyone| - |fdOf.Keys|;
      if lenOffline < 0 {
        return Abort;
      }
      var online, offline := [], [];
      var k := 0;
      while k < |everyone|
        invariant 0 <= k <= |everyone| && View() == old(View())
        invariant Listed(everyone, uid, users, true) == online + Listed(everyone[k..], uid, users, true)
        invariant Listed(everyone, uid, users, false) == offline + Listed(everyone[k..], uid, users, false)
        invariant |online| <= lenOnline && |offline| <= lenOffline
      {
        ListedNext(everyone, k, uid, users, true);
        ListedNext(everyone, k, uid, users, false);
        var u := everyone[k];
        if u != uid {
          ghost var online' := Listed(everyone[k + 1..], uid, users, true);
          ghost var offline' := Listed(everyone[k + 1..], uid, users, false);
          if u in fdOf {
            if |online| == lenOnline {
              return Overrun;
            }
            assert online + ([u] + online') == (online + [u]) + online';
            online := online + [u];
          } else {
            if |offline| == lenOffline {
              return Overrun;
            }
            assert offline + ([u] + offline') == (offline + [u]) + offline';
            offline := offline + [u];
          }
        }
        k := k + 1;
      }
      ListedNone(everyone[k..], uid, users);
      assert online + [] == online && offline + [] == offline;
      Push(fd, UserList(Filled(online, lenOnline), true));
      Push(fd, UserList(Filled(offline, lenOffline), false));
      return Keep;
    }

    lemma ListedNone(everyone: seq<nat>, uid: nat, users: set<nat>)
      requires everyone == []
      ensures Listed(everyone, uid, users, true) == Listed(everyone, uid, users, false) == []
    {}

    method ParseText(fd: nat, public: bool, dst: nat, text: seq<PartialIo.byte>,
                     checked: bool, found: bool, saved: bool) returns (v: Verdict)
      requires fd < |queues|
      requires forall u :: u in fdOf ==> fdOf[u] < |queues|
      requires forall f :: f in uidOf ==> f < |queues|
      modifies this`queues, this`wfds
      ensures v == TakeText(old(View()), fd, public, dst, text, checked, found, saved).0
      ensures v != Abort ==> View() == TakeText(old(View()), fd, public, dst, text, checked, found, saved).1
    {
      if !(fd in uidOf && uidOf[fd] in fdOf && fdOf[uidOf[fd]] == fd) {
        return Abort;
      }
      var myUid := uidOf[fd];
      var exist := false;
      if !public {
        if !checked {
          Push(fd, TextReply(0xFF));
          return Keep;
        }
        exist := found;
      } else {
        exist := dst == EVERYBODY;
      }
      var online := if public then true else dst in fdOf;
      if !saved {
        Push(fd, TextReply(0xFF));
        return Keep;
      }
      if !exist {
        Push(fd, TextReply(0xF0));
      } else if !online {
        Push(fd, TextReply(0xF1));
      } else {
        Push(fd, TextReply(0x00));
      }
      if online {
        v := PushText(myUid, dst, TextFrom(myUid, public, text));
        return;
      }
      return Keep;
    }

    /** push_textmsg. */
    method PushText(src: nat, dst: nat, m: Message) returns (v: Verdict)
      requires forall u :: u in fdOf ==> fdOf[u] < |queues|
      requires forall f :: f in uidOf ==> f < |queues|
      modifies this`queues, this`wfds
      ensures (v, View()) == PassText(old(View()), src, dst, m)
    {
      if dst == EVERYBODY {
        PushAll((set f | f in uidOf && uidOf[f] != src), m);
      } else {
        if dst !in fdOf {
          return Abort;
        }
        Push(fdOf[dst], m);
      }
      return Keep;
    }

    /** parse and the handlers. */
    method Handle(fd: nat, req: Request) returns (v: Verdict)
      requires fd < |queues|
      requires forall u :: u in fdOf ==> fdOf[u] < |queues|
      requires forall f :: f in uidOf ==> f < |queues|
      modifies this`queues, this`wfds, this`uidOf, this`fdOf
      ensures v == Receive(old(View()), fd, req).0
      ensures v == Keep || v == Drop ==> View() == Receive(old(View()), fd, req).1
    {
      match req
      case Hangup => return Drop;
      case Incomplete => return Keep;
      case Answered(reply, membersOnly) =>
        if membersOnly && !IsMember(View(), fd) {
          return Abort;
        }
        Push(fd, reply);
        return Keep;
      case Login(uid, legal, first, color, everyone) =>
        v := ParseLogin(fd, uid, legal, first, color, everyone);
      case Text(public, dst, text, checked, found, saved) =>
        v := ParseText(fd, public, dst, text, checked, found, saved);
      case Relay(m, dst) =>
        if !IsMember(View(), fd) || dst !in fdOf {
          return Abort;
        }
        Push(fdOf[dst], m);
        return Keep;
      case ShortText(public, checked) =>
        if !IsMember(View(), fd) || public || checked {
          return Abort;
        }
        Push(fd, TextReply(0xFF));
        return Keep;
      case Broken => return Abort;
    }

    /** recv_msg, on the bytes that have arrived, with what the database says: the specification of the
        book and the line, and what the clients hear of the message that the bytes make. */
    method RecvMsg(fd: nat, feed: Framing.Feed, db: Db, ghost clients: set<nat>) returns (v: Verdict)
      requires Consistent(View(), clients) && fd in clients
      requires |lines| == |queues| && Framing.Sane(lines[fd].inward)
      modifies this
      ensures Protocol.Handled(old(View()), fd, Read(old(lines[fd]), feed).found, old(lines[fd].used), db, v, View())
      ensures v == Receive(old(View()), fd, RequestIn(old(lines[fd]), feed, db)).0
      ensures v == Keep || v == Drop ==>
                && View() == Receive(old(View()), fd, RequestIn(old(lines[fd]), feed, db)).1
                && lines == old(lines)[fd := AfterRead(old(lines[fd]), feed)]
    {
      hide Receive, RequestOf, Framing.Take, Consistent, Protocol.Handled;
      ghost var b := View();
      InReach(b, clients);
      var l := lines[fd];
      FoundHeaded(l, feed);
      var ch := new PartialIo.Channel(l.stream + feed.bytes, feed.answers);
      var inbox := new MessageIo.Inbox.Resumed(l.inward, l.used);
      var found := inbox.RecvMsg(ch);
      var inward := l.inward;
      if found != Framing.Gone {
        inward := inbox.State();
      }
      lines := lines[fd := l.(inward := inward, stream := ch.stream, used := inbox.data.Length > 0)];
      v := Handle(fd, RequestOf(found, l.used, db));
      Protocol.CallHandled(b, clients, fd, found, l.used, db);
      Protocol.OnlyIfKept(b, fd, found, l.used, db, v, Receive(b, fd, RequestOf(found, l.used, db)).1, View());
    }

    lemma InReach(b: Book, clients: set<nat>)
      requires Consistent(b, clients)
      ensures |b.queues| == FD_SETSIZE && forall f :: f in clients ==> f < FD_SETSIZE
      ensures (forall u :: u in b.fdOf ==> b.fdOf[u] < FD_SETSIZE) && forall f :: f in b.uidOf ==> f < FD_SETSIZE
    {}

    /** send_msg; its assertions are its preconditions, but for that on the length of the message. */
    method SendMsg(fd: nat, answers: seq<PartialIo.Answer>) returns (v: Verdict, written: seq<PartialIo.byte>)
      requires fd < |queues| == |lines| && queues[fd] != [] && fd in wfds && LineSound(lines[fd], queues[fd])
      modifies this
      ensures var g := Wrote(old(lines[fd]), old(queues[fd]), answers);
              var (w, b) := Send(old(View()), fd, ResultOf(g, old(queues[fd])));
              && v == w && written == g.bytes
              && (v == Keep ==> View() == b && lines == old(lines)[fd := AfterWrite(old(lines[fd]), g)])
              && (v != Keep ==> View() == old(View()) && lines == old(lines))
    {
      hide Framing.Give, LineSound, Framing.Orderly, IsLast, TooLong, FrameOf;
      var c := Out(lines[fd], queues[fd]);
      OrderlyOut(lines[fd], queues[fd]);
      SendFollows(View(), fd, lines[fd], answers);
      var ch := new PartialIo.Channel([], answers);
      var outbox := new MessageIo.Outbox.Resumed(c);
      var fate := outbox.SendMsg(ch);
      written := ch.stream;
      assert [] + Wrote(lines[fd], queues[fd], answers).bytes == written;
      v := VerdictOf(fate);
      if fate == Framing.Kept {
        lines := lines[fd := lines[fd].(inHeader := outbox.sendingHeader, sent := outbox.sendLen)];
        if |outbox.sendQue| < |queues[fd]| {
          queues := queues[fd := queues[fd][1..]];
          if queues[fd] == [] {
            wfds := wfds - {fd};
          }
        }
      }
    }

    lemma OrderlyOut(l: Line, queue: seq<Message>)
      requires LineSound(l, queue)
      ensures Framing.Orderly(Out(l, queue))
    {}
  }

  datatype AcceptAnswer = Connected | Interrupted | Refused

  /** How many connections accept gives before it refuses one. */
  function Pending(answers: seq<AcceptAnswer>): nat {
    if answers == [] || answers[0].Refused? then 0
    else (if answers[0].Connected? then 1 else 0) + Pending(answers[1..])
  }

  /** The descriptors that are open, and those above the listening one that other code holds; the
      answers of accept to come; and what other code does in each of the calls to come. */
  class Kernel {
    var open: set<nat>
    var held: set<nat>
    var answers: seq<AcceptAnswer>
    var others: seq<seq<OtherStep>>

    constructor (open: set<nat>, held: set<nat>, answers: seq<AcceptAnswer>, others: seq<seq<OtherStep>>)
      ensures this.open == open && this.held == held && this.answers == answers && this.others == others
    {
      this.open, this.held, this.answers, this.others := open, held, answers, others;
    }

    /** accept4: the lowest free descriptor, or none. */
    method Accept4() returns (a: AcceptAnswer, fd: nat)
      modifies this`open, this`answers
      ensures if old(answers) == [] then a == Refused && answers == []
              else a == old(answers)[0] && answers == old(answers)[1..]
      ensures a == Connected ==> fd == LowestFree(old(open), 0) && open == old(open) + {fd}
      ensures a != Connected ==> open == old(open)
    {
      a, fd := Refused, 0;
      if answers != [] {
        a := answers[0];
        answers := answers[1..];
      }
      if a == Connected {
        fd := LowestFree(open, 0);
        open := open + {fd};
      }
    }

    /** Connections arrive. */
    method Arrive(accepts: seq<AcceptAnswer>)
      modifies this`answers
      ensures answers == accepts
    {
      answers := accepts;
    }

    /** close, on an open descriptor only. */
    method CloseFd(fd: nat)
      requires fd in open
      modifies this`open
      ensures open == old(open) - {fd}
    {
      open := open - {fd};
    }

    /** What other code opens is the lowest free descriptor; it closes nothing but its own. */
    method DoOther(step: OtherStep)
      modifies this`open, this`held
      ensures match step
              case OtherOpens =>
                var fd := LowestFree(old(open), 0); open == old(open) + {fd} && held == old(held) + {fd}
              case OtherCloses(fd) =>
                if fd in old(held) then open == old(open) - {fd} && held == old(held) - {fd}
                else open == old(open) && held == old(held)
    {
      match step
      case OtherOpens =>
        var fd := LowestFree(open, 0);
        open, held := open + {fd}, held + {fd};
      case OtherCloses(fd) =>
        if fd in held {
          open, held := open - {fd}, held - {fd};
        }
    }

    /** What other code does in its next call. */
    method NextCall() returns (steps: seq<OtherStep>)
      modifies this`others
    {
      steps := [];
      if others != [] {
        steps, others := others[0], others[1..];
      }
    }
  }

  /** What select, the kernel, the clients, the database and the system do in one round of the loop. */
  datatype Round =
    | SelectInterrupted
    | SelectFailed
    | Ready(rready: set<nat>, wready: set<nat>, accepts: seq<AcceptAnswer>,
            feeds: nat -> Framing.Feed, dbs: nat -> Db, answers: nat -> seq<PartialIo.Answer>)

  /** The rounds in which select reports something, up to one in which it fails. */
  function ReadyRounds(rounds: seq<Round>): (rs: seq<Round>)
    ensures forall r :: r in rs ==> r.Ready?
  {
    if rounds == [] || rounds[0].SelectFailed? then []
    else (if rounds[0].Ready? then [rounds[0]] else []) + ReadyRounds(rounds[1..])
  }

  /** How a round ends: as it should; with the process, by an assertion or an exception; by a list that
      is written past its end; or by a descriptor that does not fit an fd_set.  After the last two the
      code gives no meaning to what it does. */
  datatype Ending = Completed | Aborted | Overran | Overflowed

  /** More connections are pending than there is room for, and uncounted descriptors hide that. */
  predicate Crowded(t: Table, pending: nat) {
    Uncounted(t) != {} && pending > Room(t)
  }

  /** The code accepts once more, and what it gets does not fit an fd_set. */
  predicate OverTheEdge(t: Table) {
    t.numFd < FD_SETSIZE <= Accepted(t)
  }

  /** The step is due and comes to this. */
  predicate ComesTo(s: State, e: Event, v: Verdict) {
    Sound(s) && Serves(e) && Due(s, e) && Ruling(s, e) == v
  }

  /** The run serves the round from this state, as far as it goes. */
  ghost predicate Begins(s: State, r: Round, run: seq<Event>)
    requires r.Ready?
  {
    && Sound(s) && EnabledRun(s, run) && InOrder(run)
    && FromSnapshot(run, s.table.listen, s.table.clients, r.rready, r.wready * s.book.wfds)
  }

  /** The descriptors below fd are served in the run: every client that is readable is read, every one that
      is writable and had something queued is written to, unless it is not among those of now. */
  ghost predicate Served(s: State, r: Round, run: seq<Event>, fd: nat, now: set<nat>)
    requires r.Ready?
  {
    && (forall f :: f in s.table.clients * r.rready && f < fd ==> Recv(f, r.feeds(f), r.dbs(f)) in run)
    && (forall f :: f in s.book.wfds * r.wready && f < fd ==> Write(f, r.answers(f)) in run || f !in now)
  }

  /** How many connections are taken: all that are pending, up to the cap, if the listening descriptor
      is ready. */
  ghost function Taken(s: State, r: Round): nat
    requires r.Ready?
  {
    if s.table.listen in r.rready then PartialIo.Min(Pending(r.accepts), CapLeft(s.table)) else 0
  }

  /** The run serves the whole round. */
  ghost predicate Completes(s: State, r: Round, run: seq<Event>)
    requires r.Ready?
  {
    && Begins(s, r, run) && Admissions(run) == Taken(s, r)
    && Served(s, r, run, FD_SETSIZE, After(s, run).table.clients)
  }

  /** The run serves the round up to this client, which comes to this when it is read or written to. */
  ghost predicate StopsAt(s: State, r: Round, run: seq<Event>, fd: nat, v: Verdict)
    requires r.Ready? && Sound(s) && EnabledRun(s, run)
  {
    var (e, w, now) := (Recv(fd, r.feeds(fd), r.dbs(fd)), Write(fd, r.answers(fd)), After(s, run));
    && Admissions(run) == Taken(s, r) && Served(s, r, run, fd, now.table.clients)
    && ((fd in s.table.clients * r.rready && ComesTo(now, e, v)) ||
        (fd in s.book.wfds * r.wready && (fd in s.table.clients * r.rready ==> e in run) && ComesTo(now, w, v)))
  }

  /** The run serves the round up to the step at which it is cut short. */
  ghost predicate CutShort(s: State, r: Round, run: seq<Event>, end: Ending)
    requires r.Ready?
  {
    && Begins(s, r, run)
    && match end
       case Completed => false
       case Aborted => exists fd: nat :: StopsAt(s, r, run, fd, Abort)
       case Overran => exists fd: nat :: StopsAt(s, r, run, fd, Overrun)
       case Overflowed =>
         && s.table.listen in r.rready && Crowded(s.table, Pending(r.accepts))
         && (forall e :: e in run ==> e.Admit?) && OverTheEdge(After(s, run).table)
  }

  /** The descriptors below fd of the round are served, in order; now are the clients of the moment. */
  ghost predicate SoFar(s: State, r: Round, run: seq<Event>, fd: nat, now: set<nat>)
    requires r.Ready?
  {
    && Partial(run, fd, s.table.listen, s.table.clients, r.rready, r.wready * s.book.wfds)
    && Served(s, r, run, fd, now)
  }

  lemma NothingSoFar(s: State, r: Round, now: set<nat>)
    requires r.Ready? && Sound(s)
    ensures SoFar(s, r, [], s.table.listen, now) && SoFar(s, r, [], s.table.listen + 1, now) && Admissions([]) == 0
  {
    hide Accounted, Lined;
    Snapshot(s);
    EmptyRun(s.table.listen, s.table.listen, s.table.clients, r.rready, r.wready * s.book.wfds);
    EmptyRun(s.table.listen + 1, s.table.listen, s.table.clients, r.rready, r.wready * s.book.wfds);
  }

  lemma AcceptedSoFar(s: State, r: Round, run: seq<Event>, now: set<nat>)
    requires r.Ready? && Sound(s) && s.table.listen in r.rready && forall i :: 0 <= i < |run| ==> run[i].Admit?
    ensures SoFar(s, r, run, s.table.listen + 1, now) && Admissions(run) == |run|
  {
    hide Accounted, Lined;
    Snapshot(s);
    OnlyTakes(run, s.table.listen + 1, s.table.listen, s.table.clients, r.rready, r.wready * s.book.wfds);
    AllAdmissions(run);
  }

  lemma ServedSoFar(s: State, r: Round, run: seq<Event>, fd: nat, now: set<nat>, more: seq<Event>, now': set<nat>)
    requires r.Ready? && SoFar(s, r, run, fd, now) && now' <= now && InOrder(more)
    requires var (e, w) := (Recv(fd, r.feeds(fd), r.dbs(fd)), Write(fd, r.answers(fd)));
             && (forall x :: x in more ==> x == e || x == w || x.Other?)
             && (e in more ==> fd in r.rready * s.table.clients)
             && (w in more ==> fd in r.wready * s.book.wfds * s.table.clients)
    ensures Partial(run + more, fd + 1, s.table.listen, s.table.clients, r.rready, r.wready * s.book.wfds)
    ensures Admissions(run + more) == Admissions(run)
    ensures Served(s, r, run + more, fd, now')
    ensures var (e, w) := (Recv(fd, r.feeds(fd), r.dbs(fd)), Write(fd, r.answers(fd)));
            && (fd in s.table.clients * r.rready ==> e in more)
            && (fd in s.book.wfds * r.wready ==> w in more || fd !in now')
            ==> SoFar(s, r, run + more, fd + 1, now')
  {
    hide Partial, Admissions, InOrder;
    var (e, w) := (Recv(fd, r.feeds(fd), r.dbs(fd)), Write(fd, r.answers(fd)));
    Extended(run, more, fd, e, w, s.table.listen, s.table.clients, r.rready, r.wready * s.book.wfds);
    NoAdmissionsServing(more, e, w);
    AdmissionsConcat(run, more);
  }

  lemma AllServed(s: State, r: Round, run: seq<Event>, fd: nat, now: set<nat>)
    requires r.Ready? && Sound(s) && EnabledRun(s, run) && SoFar(s, r, run, fd, now)
    requires (forall f :: f in s.table.clients ==> f < fd) && now == After(s, run).table.clients
    requires Admissions(run) == Taken(s, r)
    ensures Completes(s, r, run)
  {
    hide EnabledRun, After, Accounted, Lined, InOrder, FromSnapshot;
    Snapshot(s);
    PartialIs(run, fd, s.table.listen, s.table.clients, r.rready, r.wready * s.book.wfds);
  }

  lemma PartialIs(run: seq<Event>, fd: nat, listen: nat, clients: set<nat>, rfds: set<nat>, wfds: set<nat>)
    requires Partial(run, fd, listen, clients, rfds, wfds)
    ensures InOrder(run) && FromSnapshot(run, listen, clients, rfds, wfds)
  {}

  lemma StopsHere(s: State, r: Round, run: seq<Event>, fd: nat, v: Verdict)
    requires r.Ready? && Sound(s) && EnabledRun(s, run) && Admissions(run) == Taken(s, r)
    requires Served(s, r, run, fd, After(s, run).table.clients)
    requires var (e, w) := (Recv(fd, r.feeds(fd), r.dbs(fd)), Write(fd, r.answers(fd)));
             || (fd in s.table.clients * r.rready && ComesTo(After(s, run), e, v))
             || (fd in s.book.wfds * r.wready && (fd in s.table.clients * r.rready ==> e in run)
                 && ComesTo(After(s, run), w, v))
    ensures StopsAt(s, r, run, fd, v)
  {
    hide Sound, EnabledRun, After, Served, ComesTo;
  }

  lemma CutSoFar(s: State, r: Round, run: seq<Event>, fd: nat)
    requires r.Ready? && Sound(s) && EnabledRun(s, run)
    requires Partial(run, fd, s.table.listen, s.table.clients, r.rready, r.wready * s.book.wfds)
    ensures Begins(s, r, run)
  {
    hide EnabledRun, InOrder, FromSnapshot;
    PartialIs(run, fd, s.table.listen, s.table.clients, r.rready, r.wready * s.book.wfds);
  }

  function Flat(runs: seq<seq<Event>>): seq<Event> {
    if runs == [] then [] else runs[0] + Flat(runs[1..])
  }

  /** Every round is served whole, one after another. */
  ghost predicate AllComplete(s: State, rs: seq<Round>, runs: seq<seq<Event>>)
    requires forall r :: r in rs ==> r.Ready?
    decreases |rs|
  {
    && |rs| == |runs|
    && (rs == [] ||
        (assert rs[0] in rs;
         Completes(s, rs[0], runs[0]) && AllComplete(After(s, runs[0]), rs[1..], runs[1..])))
  }

  lemma {:induction false} OneMoreRound(s: State, rs: seq<Round>, runs: seq<seq<Event>>, r: Round, run: seq<Event>)
    requires (forall q :: q in rs ==> q.Ready?) && r.Ready?
    requires Sound(s) && EnabledRun(s, Flat(runs)) && AllComplete(s, rs, runs)
    requires Completes(After(s, Flat(runs)), r, run)
    ensures (forall q :: q in rs + [r] ==> q.Ready?) && AllComplete(s, rs + [r], runs + [run])
    ensures Flat(runs + [run]) == Flat(runs) + run
    decreases |rs|
  {
    hide Sound, EnabledRun, After, Completes;
    if rs == [] {
      RunNone(s);
      assert runs + [run] == [run] && rs + [r] == [r] && run + [] == run == [] + run;
    } else {
      assert rs[0] in rs;
      SoundCompletes(s, rs[0], runs[0]);
      RunSplit(s, runs[0], Flat(runs[1..]));
      RunConcat(s, runs[0], Flat(runs[1..]));
      OneMoreRound(After(s, runs[0]), rs[1..], runs[1..], r, run);
      assert (rs + [r])[1..] == rs[1..] + [r] && (runs + [run])[1..] == runs[1..] + [run];
      assert runs[0] + (Flat(runs[1..]) + run) == (runs[0] + Flat(runs[1..])) + run;
    }
  }

  lemma SoundCompletes(s: State, r: Round, run: seq<Event>)
    requires r.Ready? && Completes(s, r, run)
    ensures EnabledRun(s, run)
  {}

  /** All rounds are served whole up to the one of the last run, and that one is cut short. */
  ghost predicate LastIsCut(s: State, rs: seq<Round>, runs: seq<seq<Event>>, end: Ending)
    requires Sound(s) && forall r :: r in rs ==> r.Ready?
  {
    0 < |runs| <= |rs| &&
    var (n, before) := (|runs| - 1, runs[..|runs| - 1]);
    && AllComplete(s, rs[..n], before) && EnabledRun(s, Flat(before))
    && CutShort(After(s, Flat(before)), rs[n], runs[n], end)
  }

  lemma CutHere(s: State, rs: seq<Round>, done: seq<Round>, runs: seq<seq<Event>>,
                r: Round, run: seq<Event>, end: Ending)
    requires Sound(s) && (forall q :: q in rs ==> q.Ready?) && done + [r] <= rs
    requires (forall q :: q in done ==> q.Ready?) && AllComplete(s, done, runs) && EnabledRun(s, Flat(runs))
    requires r.Ready? && CutShort(After(s, Flat(runs)), r, run, end)
    ensures LastIsCut(s, rs, runs + [run], end)
  {
    hide Sound, EnabledRun, After, CutShort, Completes;
    CompleteSize(s, done, runs);
    assert (runs + [run])[..|runs|] == runs && rs[..|runs|] == done && rs[|runs|] == r;
  }

  lemma CompleteSize(s: State, rs: seq<Round>, runs: seq<seq<Event>>)
    requires (forall q :: q in rs ==> q.Ready?) && AllComplete(s, rs, runs)
    ensures |rs| == |runs|
  {}

  lemma NextReady(rounds: seq<Round>, k: nat)
    requires k < |rounds| && !rounds[k].SelectFailed?
    ensures ReadyRounds(rounds[k..]) ==
            (if rounds[k].Ready? then [rounds[k]] else []) + ReadyRounds(rounds[k + 1..])
  {
    assert rounds[k..][0] == rounds[k] && rounds[k..][1..] == rounds[k + 1..];
  }

  class TCPServer {
    const listenFd: nat
    var maxFd: nat
    var numFd: int
    var clientFds: set<nat>
    const conns: Connections
    const kernel: Kernel

    ghost function View(): State
      reads this, conns, kernel
    {
      State(Table(listenFd, kernel.held, clientFds, maxFd, numFd), conns.View(), conns.lines)
    }

    ghost predicate Valid()
      reads this, conns, kernel
    {
      Sound(View()) && kernel.open == Open(View().table)
    }

    /** From the listening socket on.  Connections connects to the database, which opens descriptors. */
    constructor (listenFd: nat, kernel: Kernel)
      requires listenFd < FD_SETSIZE && (forall fd :: fd in kernel.held ==> fd > listenFd)
      requires kernel.open == Open(Start(listenFd, kernel.held))
      modifies kernel
      ensures Valid() && fresh(conns) && this.kernel == kernel
      ensures View() == StartState(listenFd, kernel.held)
    {
      hide LowestFree, UpTo, Sound, EnabledRun, After, LineSound;
      this.listenFd := listenFd;
      this.kernel := kernel;
      maxFd := listenFd;
      numFd := listenFd + 1;
      clientFds := {};
      conns := new Connections();
      new;
      StartSound(listenFd, kernel.held);
      ghost var run := CallOthers();
    }

    /** A call into other code of the process, the database client or the system log. */
    method CallOthers() returns (ghost run: seq<Event>)
      requires Valid()
      modifies kernel`open, kernel`held, kernel`others
      ensures Valid() && EnabledRun(old(View()), run) && View() == After(old(View()), run)
      ensures OnlyOthers(run)
    {
      hide Sound, EnabledRun, After, LowestFree, UpTo, Enabled, Next, OtherDone, Open;
      ghost var s := View();
      run := [];
      RunNone(s);
      var steps := kernel.NextCall();
      var k := 0;
      while k < |steps|
        invariant 0 <= k <= |steps|
        invariant Valid() && EnabledRun(s, run) && View() == After(s, run)
        invariant OnlyOthers(run)
      {
        ghost var now := View();
        kernel.DoOther(steps[k]);
        if steps[k].OtherOpens? || steps[k].fd in now.table.extra {
          OtherNext(now, steps[k]);
          Accountable(now);
          OtherOpen(now.table, steps[k]);
          RunOne(now, Other(steps[k]));
          RunConcat(s, run, [Other(steps[k])]);
          run := run + [Other(steps[k])];
        }
        k := k + 1;
      }
    }

    /** accept_sock: retried while interrupted; -1 without a connection. */
    method AcceptSock() returns (fd: int)
      modifies kernel`open, kernel`answers
      ensures fd == -1 <==> Pending(old(kernel.answers)) == 0
      ensures if fd == -1 then kernel.open == old(kernel.open)
              else && fd == LowestFree(old(kernel.open), 0) && kernel.open == old(kernel.open) + {fd}
                   && Pending(kernel.answers) == Pending(old(kernel.answers)) - 1
    {
      while true
        invariant kernel.open == old(kernel.open) && Pending(kernel.answers) == Pending(old(kernel.answers))
        decreases |kernel.answers|
      {
        var a, cfd := kernel.Accept4();
        if a == Connected {
          return cfd;
        }
        if a == Refused {
          return -1;
        }
      }
    }

    /** The accepting half of read_sock.  It stops at the first descriptor that does not fit an fd_set,
        which it meets if and only if the uncounted descriptors leave less room than is wanted. */
    method AcceptAll() returns (overflow: bool, ghost run: seq<Event>)
      requires Valid()
      modifies this, kernel`open, kernel`answers
      ensures overflow <==> Crowded(old(View()).table, Pending(old(kernel.answers)))
      ensures var (pending, room) := (Pending(old(kernel.answers)), Room(old(View()).table));
              |run| == if pending <= room then pending else room
      ensures overflow ==> OverTheEdge(View().table)
      ensures !overflow ==> Valid()
      ensures EnabledRun(old(View()), run) && View() == After(old(View()), run)
      ensures forall i :: 0 <= i < |run| ==> run[i].Admit?
      ensures old(clientFds) <= clientFds && old(maxFd) <= maxFd
    {
      hide Sound, EnabledRun, After, LowestFree, UpTo, Uncounted, Pending, Next, Open;
      ghost var s, pending := View(), Pending(kernel.answers);
      run := [];
      RunNone(s);
      RoomLeft(s);
      while numFd < FD_SETSIZE
        invariant Valid()
        invariant EnabledRun(s, run) && View() == After(s, run)
        invariant Uncounted(View().table) == Uncounted(s.table) && Room(View().table) == Room(s.table) - |run| >= 0
        invariant Pending(kernel.answers) == pending - |run|
        invariant forall i :: 0 <= i < |run| ==> run[i].Admit?
        invariant old(clientFds) <= clientFds && old(maxFd) <= maxFd
        decreases Pending(kernel.answers)
      {
        ghost var now := View();
        var cfd := AcceptSock();
        if cfd == -1 {
          return false, run;
        }
        TakeFits(now);
        if cfd >= FD_SETSIZE {
          return true, run;
        }
        AdmitNext(now);
        RunOne(now, Admit);
        RunConcat(s, run, [Admit]);
        run := run + [Admit];
        maxFd := if cfd > maxFd then cfd else maxFd;
        clientFds := clientFds + {cfd};
        numFd := numFd + 1;
        assert View() == Next(now, Admit);
        RoomLeft(View());
      }
      overflow := false;
    }

    lemma RoomLeft(s: State)
      requires Sound(s)
      ensures Room(s.table) >= 0 && s.table.numFd <= FD_SETSIZE
    {
      AcceptedFits(s.table);
    }

    method CloseSock(fd: nat)
      requires Valid() && fd in clientFds
      modifies this, kernel`open, conns
      ensures fd < |old(conns.queues)| && fd < |old(conns.lines)| && View() == Closed(old(View()), fd)
      ensures Valid()
    {
      hide LowestFree, UpTo, Sessions.CloseConn, Sound;
      ghost var s := View();
      InRange(s);
      Snapshot(s);
      ClosedSound(s, fd);
      kernel.CloseFd(fd);
      clientFds := clientFds - {fd};
      numFd := numFd - 1;
      conns.CloseConn(fd);
      assert Open(CloseOne(s.table, fd)) == Open(s.table) - {fd};
    }

    /** The part of read_sock for a client. */
    method ReadClient(fd: nat, feed: Framing.Feed, db: Db) returns (v: Verdict, ghost run: seq<Event>)
      requires Valid() && fd in clientFds
      modifies this, kernel, conns
      ensures ComesTo(old(View()), Recv(fd, feed, db), v)
      ensures EnabledRun(old(View()), run)
      ensures v == Abort || v == Overrun ==>
                && OnlyOthers(run) && ComesTo(After(old(View()), run), Recv(fd, feed, db), v)
                && After(old(View()), run).table.clients == old(clientFds)
      ensures v == Keep || v == Drop ==>
                && Around(run, Recv(fd, feed, db)) && Valid() && View() == After(old(View()), run)
                && old(clientFds) - {fd} <= clientFds <= old(clientFds) && maxFd == old(maxFd)
                && old(conns.wfds) - {fd} <= conns.wfds
      ensures v == Drop ==> fd !in clientFds
      ensures v == Keep ==> fd in clientFds && old(conns.wfds) <= conns.wfds
    {
      hide LowestFree, UpTo, Receive, EnabledRun, After, Around, Closed, Sound, Next, LineSound, AfterRead, RequestIn;
      ghost var s, e := View(), Recv(fd, feed, db);
      run := CallOthers();
      ghost var before, now := run, View();
      InRange(now);
      Basics(now, fd);
      v := conns.RecvMsg(fd, feed, db, clientFds);
      SameRuling(s, now, e);
      if v == Abort || v == Overrun {
        return;
      }
      NextSound(now, e);
      NextRead(now, e);
      RunOne(now, e);
      RunConcat(s, before, [e]);
      run := before + [e];
      if v == Drop {
        GivenUp(now, e);
        ReadOnly(now, fd, feed, db);
        CloseSock(fd);
        ghost var after := CallOthers();
        RunConcat(s, run, after);
        run := run + after;
        IsAround(before, e, after);
      } else {
        IsAround(before, e, []);
        assert run + [] == run;
      }
    }

    /** write_sock. */
    method WriteSock(fd: nat, answers: seq<PartialIo.Answer>) returns (v: Verdict, ghost run: seq<Event>)
      requires Valid() && fd in clientFds && fd in conns.wfds
      modifies this, kernel, conns
      ensures ComesTo(old(View()), Write(fd, answers), v) && v != Overrun
      ensures v == Abort ==> run == []
      ensures v != Abort ==>
                && EnabledRun(old(View()), run) && Around(run, Write(fd, answers))
                && Valid() && View() == After(old(View()), run)
                && old(clientFds) - {fd} <= clientFds <= old(clientFds) && maxFd == old(maxFd)
                && old(conns.wfds) - {fd} <= conns.wfds
    {
      hide LowestFree, UpTo, Send, EnabledRun, After, Around, Closed, Sound, Next, LineSound;
      hide Wrote, ResultOf, AfterWrite;
      ghost var s, e := View(), Write(fd, answers);
      InRange(s);
      Basics(s, fd);
      var written;
      v, written := conns.SendMsg(fd, answers);
      run := [];
      NeverOverruns(s, e);
      if v == Abort {
        return;
      }
      NextSound(s, e);
      if v == Keep {
        NextWritten(s, e);
      }
      RunOne(s, e);
      run := [e];
      StartsAround(e, []);
      if v == Drop {
        GivenUp(s, e);
        ClosedSound(s, fd);
        CloseSock(fd);
        ghost var after := CallOthers();
        StartsAround(e, after);
        RunConcat(s, run, after);
        run := run + after;
      }
    }

    lemma InRange(s: State)
      requires Sound(s)
      ensures |s.book.queues| == FD_SETSIZE && Consistent(s.book, s.table.clients)
      ensures forall fd :: fd in s.table.clients ==> fd < FD_SETSIZE && fd in Open(s.table)
      ensures forall f :: f in s.book.uidOf ==>
                f < FD_SETSIZE && s.book.uidOf[f] in s.book.fdOf && s.book.fdOf[s.book.uidOf[f]] == f
      ensures forall u :: u in s.book.fdOf ==> s.book.fdOf[u] < FD_SETSIZE
      ensures forall fd :: fd in s.book.wfds ==> fd < FD_SETSIZE && s.book.queues[fd] != []
    {}

    /** What the loop does for one client: read if it is readable, and unless that gave it up,
        write if it is writable. */
    method ServeClient(fd: nat, readable: bool, writable: bool,
                       feed: Framing.Feed, db: Db, answers: seq<PartialIo.Answer>)
      returns (end: Ending, ghost run: seq<Event>)
      requires Valid()
      requires readable ==> fd in clientFds
      requires writable ==> fd in clientFds && fd in conns.wfds
      modifies this, kernel, conns
      ensures var (r, w) := (Recv(fd, feed, db), Write(fd, answers));
              && EnabledRun(old(View()), run)
              && InOrder(run) && (forall e :: e in run ==> e == r || e == w || e.Other?)
              && (r in run ==> readable) && (w in run ==> writable)
              && end != Overflowed
              && (end == Overran <==> readable && ComesTo(old(View()), r, Overrun))
              && (end == Overran ==> ComesTo(After(old(View()), run), r, Overrun))
              && (end == Aborted <==>
                    || (readable && ComesTo(old(View()), r, Abort))
                    || (writable && (readable ==> r in run) && w !in run && ComesTo(After(old(View()), run), w, Abort)))
              && (end == Aborted ==>
                    || (readable && ComesTo(After(old(View()), run), r, Abort))
                    || (writable && (readable ==> r in run) && ComesTo(After(old(View()), run), w, Abort)))
              && After(old(View()), run).table.clients <= old(clientFds)
              && (end == Completed ==>
                    && Valid() && View() == After(old(View()), run)
                    && (readable ==> r in run)
                    && (writable ==> w in run || fd !in clientFds)
                    && old(clientFds) - {fd} <= clientFds <= old(clientFds) && old(conns.wfds) - {fd} <= conns.wfds
                    && maxFd == old(maxFd))
    {
      hide Sound, LowestFree, UpTo, EnabledRun, After, Around, InOrder, Next, Enabled, Ruling;
      ghost var s, r, w := View(), Recv(fd, feed, db), Write(fd, answers);
      end, run := Completed, [];
      RunNone(s);
      EmptyRun(fd, listenFd, {}, {}, {});
      if readable {
        var v;
        v, run := ReadClient(fd, feed, db);
        if v == Abort || v == Overrun {
          end := if v == Abort then Aborted else Overran;
          OthersInOrder(run);
          return;
        }
        AroundInOrder(run, r);
        if v == Drop {
          return;
        }
      }
      if writable {
        ghost var more;
        var v;
        v, more := WriteSock(fd, answers);
        if v == Abort {
          end := Aborted;
          return;
        }
        RunConcat(s, run, more);
        AroundInOrder(more, w);
        if readable {
          ReadThenWritten(run, more, r, w);
        }
        assert [] + more == more;
        run := run + more;
      }
    }

    lemma OthersInOrder(run: seq<Event>)
      requires OnlyOthers(run)
      ensures InOrder(run)
    {}

    /** One round of the loop after a successful select: the descriptors that select reports, taken
        in ascending order, while accepting may add clients.  The run of steps is returned.  The round
        is served whole, or cut short by connections that do not fit, exactly if uncounted descriptors
        hide that there are such, or by a step that ends the process or overruns a list. */
    method Pass(r: Round) returns (end: Ending, ghost run: seq<Event>)
      requires Valid() && r.Ready?
      modifies this, kernel, conns
      ensures EnabledRun(old(View()), run)
      ensures end == Completed ==> Valid() && View() == After(old(View()), run) && Completes(old(View()), r, run)
      ensures end != Completed ==> CutShort(old(View()), r, run, end)
      ensures end == Overflowed <==> listenFd in r.rready && Crowded(old(View()).table, Pending(r.accepts))
    {
      hide Sound, LowestFree, UpTo, Enabled, EnabledRun, After, InOrder, FromSnapshot, Partial;
      hide SoFar, Begins, Completes, Served, Taken, StopsAt;
      hide Crowded, Pending, OverTheEdge, Open, ComesTo, Next, Due, Ruling, Serves, Admissions, CapLeft;
      kernel.Arrive(r.accepts);
      ghost var s := View();
      Snapshot(s);
      var rfds, wfds := clientFds, conns.wfds;
      if numFd < FD_SETSIZE {
        rfds := rfds + {listenFd};
      }
      CrowdedAccepts(s, Pending(r.accepts));
      Capped(s, r);
      rfds, wfds := rfds * r.rready, wfds * r.wready;
      end, run := Completed, [];
      RunNone(s);
      NothingSoFar(s, r, clientFds);
      var i := listenFd;
      while i <= maxFd
        invariant listenFd <= i <= maxFd + 1 && s.table.maxFd <= maxFd
        invariant i == listenFd ==> run == [] && kernel.answers == r.accepts && View() == s
        invariant i > listenFd ==>
                    && !(listenFd in r.rready && Crowded(s.table, Pending(r.accepts)))
                    && Admissions(run) == Taken(s, r)
        invariant Valid() && EnabledRun(s, run) && View() == After(s, run)
        invariant SoFar(s, r, run, i, clientFds)
        invariant forall fd :: fd in rfds && fd >= i && fd != listenFd ==> fd in clientFds
        invariant forall fd :: fd in wfds && fd >= i ==> fd in clientFds && fd in conns.wfds
        decreases if i == listenFd then 1 else 0, maxFd - i
      {
        if i == listenFd {
          if i in rfds {
            var overflow;
            overflow, run := AcceptAll();
            AcceptedSoFar(s, r, run, clientFds);
            if overflow {
              end := Overflowed;
              SoFarIs(s, r, run, i + 1, clientFds);
              return;
            }
          } else {
            NothingSoFar(s, r, clientFds);
          }
        } else {
          ghost var more, now, before := [], View(), clientFds;
          var served;
          served, more := ServeClient(i, i in rfds, i in wfds, r.feeds(i), r.dbs(i), r.answers(i));
          RunConcat(s, run, more);
          ServedSoFar(s, r, run, i, before, more, After(now, more).table.clients);
          run := run + more;
          if served != Completed {
            end := served;
            CutSoFar(s, r, run, i + 1);
            StopsHere(s, r, run, i, if end == Aborted then Abort else Overrun);
            return;
          }
        }
        i := i + 1;
      }
      AllServed(s, r, run, i, clientFds);
    }

    lemma SoFarIs(s: State, r: Round, run: seq<Event>, fd: nat, now: set<nat>)
      requires r.Ready? && Sound(s) && EnabledRun(s, run) && SoFar(s, r, run, fd, now)
      ensures Begins(s, r, run)
    {
      hide EnabledRun, Sound, Partial, Begins;
      CutSoFar(s, r, run, fd);
    }

    /** The cap, and not the room, decides how many are taken, unless there are too many for the room. */
    lemma Capped(s: State, r: Round)
      requires Sound(s) && r.Ready?
      ensures var (pending, room) := (Pending(r.accepts), Room(s.table));
              s.table.listen in r.rready && !Crowded(s.table, pending) ==>
                (if pending <= room then pending else room) == Taken(s, r)
      ensures s.table.listen !in r.rready || s.table.numFd >= FD_SETSIZE ==> Taken(s, r) == 0
    {
      hide Uncounted;
      AcceptedFits(s.table);
    }

    lemma CrowdedAccepts(s: State, pending: nat)
      requires Sound(s)
      ensures Crowded(s.table, pending) ==> s.table.numFd < FD_SETSIZE
    {
      AcceptedFits(s.table);
    }

    /** loop: rounds until select fails, a round is cut short, or no more rounds are given.  Every round in
        which select reports something has its run, one after another, and all but a last one that is cut
        short are served whole. */
    method Loop(rounds: seq<Round>) returns (end: Ending, ghost runs: seq<seq<Event>>)
      requires Valid()
      modifies this, kernel, conns
      ensures EnabledRun(old(View()), Flat(runs))
      ensures end == Completed ==>
                && Valid() && View() == After(old(View()), Flat(runs))
                && AllComplete(old(View()), ReadyRounds(rounds), runs)
      ensures end != Completed ==>
                LastIsCut(old(View()), ReadyRounds(rounds), runs, end)
    {
      hide Sound, EnabledRun, After, UpTo, CutShort, Completes, Begins, AllComplete, LastIsCut, ReadyRounds, Crowded;
      ghost var s := View();
      end, runs := Completed, [];
      ghost var done: seq<Round> := [];
      RunNone(s);
      NoRounds(s);
      var k := 0;
      assert rounds[k..] == rounds;
      while k < |rounds|
        invariant 0 <= k <= |rounds| && end == Completed
        invariant forall r :: r in done ==> r.Ready?
        invariant ReadyRounds(rounds) == done + ReadyRounds(rounds[k..])
        invariant Valid() && EnabledRun(s, Flat(runs)) && View() == After(s, Flat(runs))
        invariant AllComplete(s, done, runs)
        decreases |rounds| - k
      {
        match rounds[k] {
          case SelectInterrupted =>
            NextReady(rounds, k);
          case SelectFailed =>
            NoMoreRounds(rounds[k..]);
            assert done + [] == done;
            return;
          case Ready(_, _, _, _, _, _) =>
            NextReady(rounds, k);
            ghost var run, now := [], View();
            end, run := Pass(rounds[k]);
            assert ReadyRounds(rounds) == (done + [rounds[k]]) + ReadyRounds(rounds[k + 1..]);
            RunConcat(s, Flat(runs), run);
            FlatMore(runs, run);
            if end != Completed {
              CutHere(s, ReadyRounds(rounds), done, runs, rounds[k], run, end);
              runs := runs + [run];
              return;
            }
            OneMoreRound(s, done, runs, rounds[k], run);
            done, runs := done + [rounds[k]], runs + [run];
        }
        k := k + 1;
      }
      NoMoreRounds(rounds[k..]);
      assert done + [] == done;
    }

    lemma NoMoreRounds(rounds: seq<Round>)
      requires rounds == [] || rounds[0].SelectFailed?
      ensures ReadyRounds(rounds) == []
    {}

    lemma NoRounds(s: State)
      ensures AllComplete(s, [], [])
    {}

    lemma {:induction false} FlatMore(runs: seq<seq<Event>>, run: seq<Event>)
      ensures Flat(runs + [run]) == Flat(runs) + run
    {
      if runs == [] {
        assert [] + [run] == [run] && run + [] == run == [] + run;
      } else {
        assert (runs + [run])[1..] == runs[1..] + [run];
        FlatMore(runs[1..], run);
        assert runs[0] + (Flat(runs[1..]) + run) == (runs[0] + Flat(runs[1..])) + run;
      }
    }

    /** The destructor: it closes the listening descriptor and every client, each of them open,
        and leaves the process what it held before and what other code holds. */
    method Destroy()
      requires Valid()
      modifies kernel`open
      ensures kernel.open == UpTo(listenFd) + kernel.held
    {
      hide Sound;
      Snapshot(View());
      assert UpTo(listenFd + 1) == UpTo(listenFd) + {listenFd};
      kernel.CloseFd(listenFd);
      var i := listenFd + 1;
      while i <= maxFd
        invariant listenFd < i <= maxFd + 1
        invariant kernel.open == UpTo(listenFd) + kernel.held + (set fd | fd in clientFds && fd >= i)
      {
        if i in clientFds {
          kernel.CloseFd(i);
        }
        i := i + 1;
      }
    }
  }
}
