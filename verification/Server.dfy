/** The server as a state machine: descriptor table, session book and the lines of the connections
    together, one step for every connection accepted, every client served, and every descriptor that
    other code opens or closes. */
module Server {
  import opened PartialIo
  import opened Framing
  import opened Messages
  import opened Requests
  import opened Descriptors
  import opened Sessions
  import opened Lines

  datatype State = State(table: Table, book: Book, lines: seq<Line>)

  /** What the server does to one descriptor, with a client that is given up closed in the same step;
      and what other code of the process does in between.  A client is read after some bytes have
      arrived, with what the database says; the system answers the reads and writes. */
  datatype Event =
    | Admit
    | Recv(fd: nat, feed: Feed, db: Db)
    | Write(fd: nat, answers: seq<Answer>)
    | Other(step: OtherStep)

  /** The invariant: the accounting holds, every client fits an fd_set, the book is consistent, and every
      connection stands where its line says. */
  predicate Sound(s: State) {
    && Accounted(s.table) && ClientsFit(s.table) && s.table.maxFd < FD_SETSIZE
    && Consistent(s.book, s.table.clients) && Lined(s)
  }

  predicate Lined(s: State) {
    && |s.lines| == |s.book.queues| == FD_SETSIZE
    && (forall fd :: 0 <= fd < |s.lines| ==> LineSound(s.lines[fd], s.book.queues[fd]))
    && (forall fd :: 0 <= fd < |s.lines| && fd !in s.table.clients ==> s.lines[fd] == Idle(s.lines[fd].used))
  }

  function StartState(listen: nat, extra: set<nat>): State {
    State(Start(listen, extra), NewBook(), seq(FD_SETSIZE, _ => Idle(false)))
  }

  lemma StartSound(listen: nat, extra: set<nat>)
    requires listen < FD_SETSIZE && (forall fd :: fd in extra ==> fd > listen)
    ensures Sound(StartState(listen, extra))
  {
    hide LineSound;
    NewBookConsistent();
    IdleSound(false, []);
  }

  lemma Sized(s: State)
    requires Sound(s)
    ensures |s.lines| == |s.book.queues| == FD_SETSIZE
  {
    hide LineSound;
  }

  /** What soundness says of one descriptor. */
  lemma Basics(s: State, fd: nat)
    requires Sound(s) && (fd in s.table.clients || fd < FD_SETSIZE)
    ensures fd < FD_SETSIZE == |s.lines| == |s.book.queues|
    ensures forall u :: u in s.book.fdOf ==> s.book.fdOf[u] < FD_SETSIZE
    ensures fd in s.book.wfds <==> s.book.queues[fd] != []
    ensures LineSound(s.lines[fd], s.book.queues[fd]) && Sane(s.lines[fd].inward)
    ensures Orderly(Out(s.lines[fd], s.book.queues[fd]))
  {
    hide Sane, Orderly;
  }

  lemma SaneLine(s: State, fd: nat)
    requires Sound(s) && fd < FD_SETSIZE
    ensures |s.lines| == FD_SETSIZE && Sane(s.lines[fd].inward)
  {
    hide Sane, Orderly;
  }

  /** The request that recv_msg finds in a client's bytes. */
  function Asked(s: State, fd: nat, feed: Feed, db: Db): Request
    requires Sound(s) && fd < FD_SETSIZE
  {
    RequestIn(s.lines[fd], feed, db)
  }

  /** What send_msg does for a client with a message queued. */
  function Sends(s: State, fd: nat, answers: seq<Answer>): Given
    requires Sound(s) && fd in s.book.wfds && fd < FD_SETSIZE
  {
    Wrote(s.lines[fd], s.book.queues[fd], answers)
  }

  function Result(s: State, fd: nat, answers: seq<Answer>): SendResult
    requires Sound(s) && fd in s.book.wfds && fd < FD_SETSIZE
  {
    ResultOf(Sends(s, fd, answers), s.book.queues[fd])
  }

  /** What becomes of a client that is read or written. */
  function Ruling(s: State, e: Event): Verdict
    requires Sound(s) && Due(s, e) && Serves(e)
  {
    match e
    case Recv(fd, feed, db) => Receive(s.book, fd, Asked(s, fd, feed, db)).0
    case Write(fd, answers) => Send(s.book, fd, Result(s, fd, answers)).0
    case _ => Keep
  }

  /** The step is one that the code takes: recv_msg and send_msg on open clients only, and send_msg with
      a message queued; other code closes its own descriptors only. */
  predicate Due(s: State, e: Event)
    requires Sound(s)
  {
    match e
    case Admit => true
    case Recv(fd, _, _) => fd in s.table.clients
    case Write(fd, _) => fd in s.table.clients && fd in s.book.wfds
    case Other(step) => step.OtherCloses? ==> step.fd in s.table.extra
  }

  /** The step does not end the process, or leave the memory that it is for: accepting stays within an
      fd_set, and no list is overrun. */
  predicate Enabled(s: State, e: Event)
    requires Sound(s)
  {
    && Due(s, e)
    && (e == Admit ==> Room(s.table) > 0)
    && (Serves(e) ==> Ruling(s, e) == Keep || Ruling(s, e) == Drop)
  }

  function Closed(s: State, fd: nat): State
    requires fd < |s.book.queues| && fd < |s.lines|
  {
    State(CloseOne(s.table, fd), CloseConn(s.book, fd), s.lines[fd := Idle(s.lines[fd].used)])
  }

  function Next(s: State, e: Event): State
    requires Sound(s) && Enabled(s, e)
  {
    match e
    case Admit => s.(table := AcceptOne(s.table))
    case Recv(fd, feed, db) =>
      var (v, b) := Receive(s.book, fd, Asked(s, fd, feed, db));
      var n := s.(book := b, lines := s.lines[fd := AfterRead(s.lines[fd], feed)]);
      if v == Keep then n else Closed(n, fd)
    case Write(fd, answers) =>
      var (v, b) := Send(s.book, fd, Result(s, fd, answers));
      if v == Keep then s.(book := b, lines := s.lines[fd := AfterWrite(s.lines[fd], Sends(s, fd, answers))])
      else Closed(s.(book := b), fd)
    case Other(step) => s.(table := OtherDone(s.table, step))
  }

  /** The step serves a client. */
  predicate Serves(e: Event) { e.Recv? || e.Write? }

  /** A step keeps the invariant.  It takes no other descriptor out of the clients or out of the
      writable set; only an accepted descriptor is a new client; and only other code opens or closes
      descriptors uncounted. */
  lemma NextSound(s: State, e: Event)
    requires Sound(s) && Enabled(s, e)
    ensures Sound(Next(s, e))
    ensures var s' := Next(s, e);
            && s'.table.listen == s.table.listen
            && (!e.Other? ==> s'.table.extra == s.table.extra)
            && (e.Admit? ==> s'.table.clients == s.table.clients + {Accepted(s.table)})
            && (Serves(e) ==>
                  s'.table.clients <= s.table.clients && s.table.clients - {e.fd} <= s'.table.clients &&
                  s'.table.maxFd == s.table.maxFd && s.book.wfds - {e.fd} <= s'.book.wfds)
            && (e.Other? ==> s'.table == OtherDone(s.table, e.step))
            && (!Serves(e) ==> s'.book == s.book && s'.lines == s.lines)
            && (e.Recv? && e.fd in s'.table.clients ==> s.book.wfds <= s'.book.wfds)
  {
    hide Accounted, Consistent, Receive, Send, CloseConn, Accepted, LineSound, AfterRead, RequestIn, Wrote, ResultOf;
    match e
    case Admit => {
      AcceptedFits(s.table);
      AcceptAccounted(s.table);
      MoreClients(s.book, s.table.clients, Accepted(s.table));
    }
    case Recv(fd, feed, db) => {
      ReadSound(s, fd, feed, db);
    }
    case Write(fd, answers) => {
      WriteSound(s, fd, answers);
    }
    case Other(step) => {
      OtherAccounted(s.table, step);
    }
  }

  lemma ReadSound(s: State, fd: nat, feed: Feed, db: Db)
    requires Sound(s) && fd in s.table.clients && Enabled(s, Recv(fd, feed, db))
    ensures var s' := Next(s, Recv(fd, feed, db));
            && Sound(s') && s'.table.listen == s.table.listen && s'.table.extra == s.table.extra
            && s'.table.clients <= s.table.clients && s.table.clients - {fd} <= s'.table.clients
            && s'.table.maxFd == s.table.maxFd && s.book.wfds - {fd} <= s'.book.wfds
            && (fd in s'.table.clients ==> s.book.wfds <= s'.book.wfds)
  {
    hide Accounted, Consistent, Receive, CloseConn, LineSound, AfterRead, RequestIn;
    Basics(s, fd);
    var (v, b) := Receive(s.book, fd, Asked(s, fd, feed, db));
    ReceiveConsistent(s.book, s.table.clients, fd, Asked(s, fd, feed, db));
    var n := s.(book := b, lines := s.lines[fd := AfterRead(s.lines[fd], feed)]);
    StillSound(s.lines[fd], s.book.queues[fd], AfterRead(s.lines[fd], feed));
    GrownSound(s.(lines := n.lines), b);
    if v != Keep {
      ClosedSound(n, fd);
    }
  }

  lemma WriteSound(s: State, fd: nat, answers: seq<Answer>)
    requires Sound(s) && fd in s.table.clients && Enabled(s, Write(fd, answers))
    ensures var s' := Next(s, Write(fd, answers));
            && Sound(s') && s'.table.listen == s.table.listen && s'.table.extra == s.table.extra
            && s'.table.clients <= s.table.clients && s.table.clients - {fd} <= s'.table.clients
            && s'.table.maxFd == s.table.maxFd && s.book.wfds - {fd} <= s'.book.wfds
  {
    hide Accounted, Consistent, Send, CloseConn, LineSound, Wrote, ResultOf, AfterWrite;
    Basics(s, fd);
    SendConsistent(s.book, s.table.clients, fd, Result(s, fd, answers));
    SendFollows(s.book, fd, s.lines[fd], answers);
    if Ruling(s, Write(fd, answers)) != Keep {
      ClosedSound(s, fd);
    }
  }

  /** Reading leaves what has been sent alone. */
  lemma StillSound(l: Line, queue: seq<Message>, l': Line)
    requires LineSound(l, queue) && Sane(l'.inward) && l'.inHeader == l.inHeader && l'.sent == l.sent
    ensures LineSound(l', queue)
  {
    hide Orderly;
  }

  /** Longer queues leave the lines alone. */
  lemma GrownSound(s: State, b: Book)
    requires Lined(s) && Appends(s.book, b)
    ensures Lined(s.(book := b))
  {
    hide LineSound;
    forall fd | 0 <= fd < |s.lines|
      ensures LineSound(s.lines[fd], b.queues[fd])
    {
      QueueGrows(s.lines[fd], s.book.queues[fd], b.queues[fd]);
    }
  }

  /** Accepting is where the code can leave an fd_set: it accepts as long as _num_fd is below the cap,
      and there is room for what it accepts exactly if the uncounted descriptors leave room too.  With
      none of them it never goes wrong. */
  lemma TakeFits(s: State)
    requires Sound(s) && s.table.numFd < FD_SETSIZE
    ensures Enabled(s, Admit) <==> Accepted(s.table) < FD_SETSIZE
    ensures Enabled(s, Admit) <==> |s.table.clients| < FD_SETSIZE - s.table.listen - 1 - |Uncounted(s.table)|
    ensures Uncounted(s.table) == {} ==> Enabled(s, Admit)
  {
    hide Accepted, Uncounted;
    AcceptedFits(s.table);
  }

  lemma ClosedSound(s: State, fd: nat)
    requires Sound(s) && fd in s.table.clients
    ensures fd < |s.book.queues| && fd < |s.lines|
    ensures var s' := Closed(s, fd);
            && Sound(s') && s'.table.clients == s.table.clients - {fd} && s'.table.maxFd == s.table.maxFd
            && s'.table.listen == s.table.listen && s'.table.extra == s.table.extra
            && s.book.wfds - {fd} <= s'.book.wfds
  {
    hide CloseConn, Consistent, Accounted, LineSound;
    InQueues(s.book, s.table.clients, fd);
    CloseConsistent(s.book, s.table.clients, fd);
    CloseAccounted(s.table, fd);
    CloseTells(s.book, s.table.clients, fd);
    var b := CloseConn(s.book, fd);
    forall f | 0 <= f < |s.lines| && f != fd
      ensures LineSound(s.lines[f], b.queues[f])
    {
      QueueGrows(s.lines[f], s.book.queues[f], b.queues[f]);
    }
    IdleSound(s.lines[fd].used, []);
  }

  lemma InQueues(b: Book, clients: set<nat>, fd: nat)
    requires Consistent(b, clients) && fd in clients
    ensures fd < |b.queues|
  {}

  /** A step that gives its client up is the closing of that client. */
  lemma GivenUp(s: State, e: Event)
    requires Sound(s) && Serves(e) && Enabled(s, e) && Ruling(s, e) == Drop
    ensures match e
            case Recv(fd, feed, db) =>
              Next(s, e) == Closed(s.(lines := s.lines[fd := AfterRead(s.lines[fd], feed)]), fd)
            case Write(fd, _) => Next(s, e) == Closed(s, fd)
            case _ => true
  {
    hide Receive, Send, CloseConn, LineSound, RequestIn, AfterRead, Wrote, ResultOf, Accounted, Consistent;
    match e
    case Recv(fd, feed, db) => { ReceiveConsistent(s.book, s.table.clients, fd, Asked(s, fd, feed, db)); }
    case Write(fd, answers) => { SendConsistent(s.book, s.table.clients, fd, Result(s, fd, answers)); }
    case _ =>
  }

  /** What the step leaves, said with the book and the lines only. */
  lemma NextRead(s: State, e: Event)
    requires Sound(s) && e.Recv? && Enabled(s, e)
    ensures |s.lines| > e.fd
    ensures var n := s.(book := Receive(s.book, e.fd, Asked(s, e.fd, e.feed, e.db)).1,
                        lines := s.lines[e.fd := AfterRead(s.lines[e.fd], e.feed)]);
            Ruling(s, e) == Keep ==> Next(s, e) == n && e.fd in Next(s, e).table.clients
    ensures Ruling(s, e) == Drop ==> e.fd !in Next(s, e).table.clients
  {
    hide Receive, CloseConn, LineSound, RequestIn, AfterRead, Accounted, Consistent;
  }

  lemma NextWritten(s: State, e: Event)
    requires Sound(s) && e.Write? && Enabled(s, e) && Ruling(s, e) == Keep
    ensures Next(s, e) == s.(book := Send(s.book, e.fd, Result(s, e.fd, e.answers)).1,
                             lines := s.lines[e.fd := AfterWrite(s.lines[e.fd], Sends(s, e.fd, e.answers))])
  {
    hide Send, CloseConn, LineSound, Wrote, ResultOf, AfterWrite, Accounted, Consistent;
  }

  /** Reading alone keeps the invariant, when it gives the client up. */
  lemma ReadOnly(s: State, fd: nat, feed: Feed, db: Db)
    requires Sound(s) && fd in s.table.clients && Enabled(s, Recv(fd, feed, db))
    requires Ruling(s, Recv(fd, feed, db)) == Drop
    ensures fd < |s.lines| && Sane(s.lines[fd].inward)
    ensures Receive(s.book, fd, Asked(s, fd, feed, db)).1 == s.book
    ensures Sound(s.(lines := s.lines[fd := AfterRead(s.lines[fd], feed)]))
  {
    hide Accounted, Consistent, Receive, CloseConn, LineSound, AfterRead, RequestIn;
    Basics(s, fd);
    ReceiveConsistent(s.book, s.table.clients, fd, Asked(s, fd, feed, db));
    StillSound(s.lines[fd], s.book.queues[fd], AfterRead(s.lines[fd], feed));
  }

  lemma OtherNext(s: State, step: OtherStep)
    requires Sound(s) && (step.OtherCloses? ==> step.fd in s.table.extra)
    ensures Enabled(s, Other(step)) && Next(s, Other(step)) == s.(table := OtherDone(s.table, step))
    ensures Sound(Next(s, Other(step)))
  {
    hide Sound, OtherDone;
    NextSound(s, Other(step));
  }

  lemma Accountable(s: State)
    requires Sound(s)
    ensures Accounted(s.table)
  {}

  lemma AdmitNext(s: State)
    requires Sound(s) && Enabled(s, Admit)
    ensures Next(s, Admit) == s.(table := AcceptOne(s.table)) && Sound(Next(s, Admit))
    ensures var t := Next(s, Admit).table;
            && Uncounted(t) == Uncounted(s.table) && Room(t) == Room(s.table) - 1
            && Open(t) == Open(s.table) + {Accepted(s.table)}
  {
    hide Sound, Accepted;
    NextSound(s, Admit);
  }

  /** What becomes of a client depends on the book and its line only. */
  lemma SameRuling(s: State, n: State, e: Event)
    requires Sound(s) && Sound(n) && Serves(e) && Due(s, e) && n.book == s.book && n.lines == s.lines
    requires n.table.clients == s.table.clients
    ensures Due(n, e) && Ruling(n, e) == Ruling(s, e)
  {
    hide Accounted, Consistent, Receive, Send, LineSound, RequestIn, ResultOf, Wrote;
  }

  lemma NeverOverruns(s: State, e: Event)
    requires Sound(s) && e.Write? && Due(s, e)
    ensures Ruling(s, e) != Overrun
  {
    hide Accounted, Consistent, LineSound, ResultOf, Wrote, IsLast, TooLong;
  }

  /** What ends the process, and what overruns a list: read off the request, or off the message and the
      bytes that are still to be written of its header. */
  lemma EndsWhen(s: State, e: Event)
    requires Sound(s) && Due(s, e) && Serves(e)
    ensures Ruling(s, e) == Abort <==>
              match e
              case Recv(fd, feed, db) => Fatal(s.book, fd, Asked(s, fd, feed, db))
              case Write(fd, answers) =>
                var (l, m) := (s.lines[fd], s.book.queues[fd][0]);
                && l.inHeader && TooLong(m) && !IsLast(m)
                && !Fruitless(answers, HEADER - l.sent, HEADER - l.sent)
                && Transfer(answers, HEADER - l.sent, HEADER - l.sent).moved == HEADER - l.sent
              case _ => false
    ensures Ruling(s, e) == Overrun <==> e.Recv? && Overruns(s.book, e.fd, Asked(s, e.fd, e.feed, e.db))
  {
    hide Receive, Send, Fatal, Overruns, Accounted, RequestIn, Consistent, FrameOf, Formed, IsLast, IsLastHeader;
    hide TooLong, Fruitless, Transfer, Give;
    Basics(s, e.fd);
    match e
    case Recv(fd, feed, db) => {
      ReceiveAborts(s.book, s.table.clients, fd, Asked(s, fd, feed, db));
    }
    case Write(fd, answers) => {
      var (l, q) := (s.lines[fd], s.book.queues[fd]);
      SendFollows(s.book, fd, l, answers);
      EndsExactly(Out(l, q), answers);
      HeaderIs(q[0]);
      FormedUnlessTooLong(q[0]);
    }
    case _ =>
  }

  lemma MoreClients(b: Book, clients: set<nat>, fd: nat)
    requires Consistent(b, clients) && fd < FD_SETSIZE
    ensures Consistent(b, clients + {fd})
  {}

  // ----- runs

  predicate EnabledRun(s: State, run: seq<Event>)
    requires Sound(s)
    decreases |run|
  {
    run == [] ||
    (Enabled(s, run[0]) && (NextSound(s, run[0]); EnabledRun(Next(s, run[0]), run[1..])))
  }

  function After(s: State, run: seq<Event>): State
    requires Sound(s) && EnabledRun(s, run)
    decreases |run|
  {
    if run == [] then s else (NextSound(s, run[0]); After(Next(s, run[0]), run[1..]))
  }

  lemma RunNone(s: State)
    requires Sound(s)
    ensures EnabledRun(s, []) && After(s, []) == s
  {}

  lemma {:induction false} AfterSound(s: State, run: seq<Event>)
    requires Sound(s) && EnabledRun(s, run)
    ensures Sound(After(s, run)) && After(s, run).table.listen == s.table.listen
    decreases |run|
  {
    hide Sound, Enabled, Next;
    if run != [] {
      NextSound(s, run[0]);
      AfterSound(Next(s, run[0]), run[1..]);
    }
  }

  lemma {:induction false} RunConcat(s: State, run: seq<Event>, more: seq<Event>)
    requires Sound(s) && EnabledRun(s, run) && Sound(After(s, run)) && EnabledRun(After(s, run), more)
    ensures EnabledRun(s, run + more)
    ensures After(s, run + more) == After(After(s, run), more)
    decreases |run|
  {
    hide Sound, Enabled, Next;
    if run == [] {
      assert run + more == more;
    } else {
      NextSound(s, run[0]);
      RunConcat(Next(s, run[0]), run[1..], more);
      assert (run + more)[1..] == run[1..] + more;
    }
  }

  /** The descriptors that are accepted in the run. */
  function AcceptedIn(s: State, run: seq<Event>): set<nat>
    requires Sound(s) && EnabledRun(s, run)
    decreases |run|
  {
    if run == [] then {}
    else
      (NextSound(s, run[0]);
       (if run[0].Admit? then {Accepted(s.table)} else {}) + AcceptedIn(Next(s, run[0]), run[1..]))
  }

  /** _max_fd is the highest descriptor that was ever accepted, or what it was at the start. */
  lemma {:induction false} MaxFdIsHighest(s: State, run: seq<Event>)
    requires Sound(s) && EnabledRun(s, run)
    ensures var (m, all) := (After(s, run).table.maxFd, AcceptedIn(s, run) + {s.table.maxFd});
            m in all && forall fd :: fd in all ==> fd <= m
    decreases |run|
  {
    hide Sound, Enabled, Next, Accepted;
    if run != [] {
      NextSound(s, run[0]);
      NextMaxFd(s, run[0]);
      MaxFdIsHighest(Next(s, run[0]), run[1..]);
    }
  }

  lemma NextMaxFd(s: State, e: Event)
    requires Sound(s) && Enabled(s, e)
    ensures var m := Next(s, e).table.maxFd;
            if e.Admit? then
              && m >= s.table.maxFd && m >= Accepted(s.table)
              && (m == s.table.maxFd || m == Accepted(s.table))
            else m == s.table.maxFd
  {
    hide Accounted, Consistent, Receive, Send, CloseConn, Accepted, LineSound, AfterRead, RequestIn, Wrote, ResultOf;
  }

  /** The step reads a body, or part of one, into the data of the connection. */
  predicate FillsData(s: State, e: Event, f: nat)
    requires Sound(s) && f < FD_SETSIZE
  {
    SaneLine(s, f);
    && e.Recv? && e.fd == f
    && ReadsBody(s.lines[f].inward, e.feed.answers, s.lines[f].stream + e.feed.bytes)
  }

  predicate FillsInRun(s: State, run: seq<Event>, f: nat)
    requires Sound(s) && EnabledRun(s, run) && f < FD_SETSIZE
    decreases |run|
  {
    run != [] && (NextSound(s, run[0]); FillsData(s, run[0], f) || FillsInRun(Next(s, run[0]), run[1..], f))
  }

  /** Over every run, whoever has been on the descriptor: a body that was ever read over it leaves data
      behind, for whoever is on it then, and nothing else does. */
  lemma {:induction false} DataStays(s: State, run: seq<Event>, f: nat)
    requires Sound(s) && EnabledRun(s, run) && f < FD_SETSIZE
    ensures |s.lines| == |After(s, run).lines| == FD_SETSIZE
    ensures After(s, run).lines[f].used <==> s.lines[f].used || FillsInRun(s, run, f)
    decreases |run|
  {
    hide Sound, Enabled, Next, FillsData;
    Sized(s);
    if run != [] {
      NextSound(s, run[0]);
      DataAfter(s, run[0], f);
      DataStays(Next(s, run[0]), run[1..], f);
    }
  }

  lemma DataAfter(s: State, e: Event, f: nat)
    requires Sound(s) && Enabled(s, e) && f < FD_SETSIZE
    ensures |s.lines| == |Next(s, e).lines| == FD_SETSIZE
    ensures Next(s, e).lines[f].used <==> s.lines[f].used || FillsData(s, e, f)
  {
    hide Accounted, Consistent, Receive, Send, CloseConn, Accepted, LineSound, RequestIn, Wrote, ResultOf, Read;
    hide ReadsBody;
    SaneLine(s, f);
  }

  lemma RunOne(s: State, e: Event)
    requires Sound(s) && Enabled(s, e)
    ensures EnabledRun(s, [e]) && After(s, [e]) == Next(s, e)
  {}

  /** In every state that the server reaches, whatever descriptors other code holds at the start or
      opens and closes meanwhile: the accounting, every client below FD_SETSIZE, the writable set
      exactly the clients with a message queued, and the two user maps inverse. */
  lemma ReachableSound(listen: nat, extra: set<nat>, run: seq<Event>)
    requires listen < FD_SETSIZE && (forall fd :: fd in extra ==> fd > listen)
    ensures Sound(StartState(listen, extra))
    ensures EnabledRun(StartState(listen, extra), run) ==> Sound(After(StartState(listen, extra), run))
  {
    StartSound(listen, extra);
    if EnabledRun(StartState(listen, extra), run) {
      AfterSound(StartState(listen, extra), run);
    }
  }

  // ----- what a session is sent

  /** What a step adds to the queue of f, said without looking at the queues. */
  function Queued(s: State, e: Event, f: nat): seq<Message>
    requires Sound(s) && Enabled(s, e)
  {
    match e
    case Admit => []
    case Recv(fd, feed, db) =>
      (EndsWhen(s, e);
       if Ruling(s, e) == Drop then ToldByClose(s.book, fd, f)
       else ToldByRequest(s.book, fd, Asked(s, fd, feed, db), f))
    case Write(fd, answers) => if Ruling(s, e) == Drop then ToldByClose(s.book, fd, f) else []
    case Other(_) => []
  }

  /** The message that a step finishes sending to f, if any; of a last message, the header. */
  function Sent(s: State, e: Event, f: nat): seq<Message>
    requires Sound(s) && Enabled(s, e)
  {
    if e.Write? && e.fd == f && Result(s, f, e.answers) == SendWhole then [s.book.queues[f][0]] else []
  }

  function QueuedInRun(s: State, run: seq<Event>, f: nat): seq<Message>
    requires Sound(s) && EnabledRun(s, run)
    decreases |run|
  {
    if run == [] then []
    else (NextSound(s, run[0]); Queued(s, run[0], f) + QueuedInRun(Next(s, run[0]), run[1..], f))
  }

  function SentInRun(s: State, run: seq<Event>, f: nat): seq<Message>
    requires Sound(s) && EnabledRun(s, run)
    decreases |run|
  {
    if run == [] then []
    else (NextSound(s, run[0]); Sent(s, run[0], f) + SentInRun(Next(s, run[0]), run[1..], f))
  }

  /** What a step writes to f. */
  function Written(s: State, e: Event, f: nat): seq<byte>
    requires Sound(s) && Enabled(s, e)
  {
    if e.Write? && e.fd == f then Sends(s, f, e.answers).bytes else []
  }

  function WrittenInRun(s: State, run: seq<Event>, f: nat): seq<byte>
    requires Sound(s) && EnabledRun(s, run)
    decreases |run|
  {
    if run == [] then []
    else (NextSound(s, run[0]); Written(s, run[0], f) + WrittenInRun(Next(s, run[0]), run[1..], f))
  }

  /** What a step finds in the bytes of f. */
  function FoundIn(s: State, e: Event, f: nat): seq<Frame>
    requires Sound(s) && Enabled(s, e)
  {
    if e.Recv? && e.fd == f then FramesOf(Read(s.lines[f], e.feed).found) else []
  }

  function FoundInRun(s: State, run: seq<Event>, f: nat): seq<Frame>
    requires Sound(s) && EnabledRun(s, run)
    decreases |run|
  {
    if run == [] then []
    else (NextSound(s, run[0]); FoundIn(s, run[0], f) + FoundInRun(Next(s, run[0]), run[1..], f))
  }

  /** f is a client up to the last step, which may be the one that gives it up. */
  predicate Lives(s: State, run: seq<Event>, f: nat)
    requires Sound(s) && EnabledRun(s, run)
    decreases |run|
  {
    run == [] || (f in s.table.clients && (NextSound(s, run[0]); Lives(Next(s, run[0]), run[1..], f)))
  }

  lemma FirstStep(s: State, run: seq<Event>, f: nat)
    requires Sound(s) && EnabledRun(s, run) && run != []
    ensures var (e, n, later) := (run[0], Next(s, run[0]), run[1..]);
            && Sound(n) && EnabledRun(n, later) && After(s, run) == After(n, later)
            && QueuedInRun(s, run, f) == Queued(s, e, f) + QueuedInRun(n, later, f)
            && SentInRun(s, run, f) == Sent(s, e, f) + SentInRun(n, later, f)
            && WrittenInRun(s, run, f) == Written(s, e, f) + WrittenInRun(n, later, f)
            && FoundInRun(s, run, f) == FoundIn(s, e, f) + FoundInRun(n, later, f)
            && (Lives(s, run, f) ==> f in s.table.clients && Lives(n, later, f))
  {
    hide Sound, Enabled, Next, Queued, Sent, Written, FoundIn;
    NextSound(s, run[0]);
  }

  lemma FirstEnabled(s: State, run: seq<Event>)
    requires Sound(s) && EnabledRun(s, run) && run != []
    ensures Enabled(s, run[0])
  {
    hide Sound, Enabled, Next;
  }

  lemma NoStep(s: State, run: seq<Event>, f: nat)
    requires Sound(s) && run == []
    ensures EnabledRun(s, run) && After(s, run) == s
    ensures QueuedInRun(s, run, f) == SentInRun(s, run, f) == []
    ensures WrittenInRun(s, run, f) == []
    ensures FoundInRun(s, run, f) == []
  {}

  lemma QueueStep(s: State, e: Event, f: nat)
    requires Sound(s) && Enabled(s, e) && f in s.table.clients
    ensures |s.book.queues| == FD_SETSIZE > f && |Next(s, e).book.queues| == FD_SETSIZE
    ensures Sent(s, e, f) <= s.book.queues[f]
    ensures f in Next(s, e).table.clients ==>
              s.book.queues[f] + Queued(s, e, f) == Sent(s, e, f) + Next(s, e).book.queues[f]
  {
    hide Accounted, Receive, Fatal, Overruns, CloseConn, Accepted, ToldByRequest, ToldByClose, IsLast, TooLong;
    hide RequestIn, AfterRead, Wrote, ResultOf, AfterWrite, LineSound;
    match e
    case Admit =>
    case Recv(fd, feed, db) => {
      var req := Asked(s, fd, feed, db);
      ReceiveAborts(s.book, s.table.clients, fd, req);
      if Ruling(s, e) == Keep {
        ReceiveTells(s.book, s.table.clients, fd, req);
      }
      ReceiveConsistent(s.book, s.table.clients, fd, req);
      CloseTells(s.book, s.table.clients, fd);
    }
    case Write(fd, answers) => {
      CloseTells(s.book, s.table.clients, fd);
      SendConsistent(s.book, s.table.clients, fd, Result(s, fd, answers));
    }
    case Other(step) =>
  }

  /** As long as f is a client: what it was sent, then what is queued, is what was queued at the start,
      then what the steps told it, in order.  At the step that gives it up, what it was sent is still a
      beginning of that. */
  lemma {:induction false} QueueIsFifo(s: State, run: seq<Event>, f: nat)
    requires Sound(s) && EnabledRun(s, run) && Lives(s, run, f) && f < FD_SETSIZE
    ensures |s.book.queues| == FD_SETSIZE && Sound(After(s, run)) && |After(s, run).book.queues| == FD_SETSIZE
    ensures SentInRun(s, run, f) <= s.book.queues[f] + QueuedInRun(s, run, f)
    ensures f in After(s, run).table.clients ==>
              s.book.queues[f] + QueuedInRun(s, run, f) == SentInRun(s, run, f) + After(s, run).book.queues[f]
    decreases |run|
  {
    hide Enabled, Next, Sound, Queued, Sent, EnabledRun, After, Lives, QueuedInRun, SentInRun;
    Sized(s);
    if run == [] {
      NoStep(s, run, f);
    } else {
      var e, later := run[0], run[1..];
      FirstEnabled(s, run);
      FirstStep(s, run, f);
      QueueStep(s, e, f);
      var n := Next(s, e);
      QueueIsFifo(n, later, f);
      if f in n.table.clients {
        Carried(s.book.queues[f], Queued(s, e, f), Sent(s, e, f), n.book.queues[f],
                QueuedInRun(n, later, f), SentInRun(n, later, f), After(n, later).book.queues[f]);
      } else {
        LeavesLast(n, later, f);
        NoStep(n, later, f);
      }
    }
  }

  /** What comes in behind and goes out in front, over one step and over the rest. */
  lemma Carried<T>(q: seq<T>, told: seq<T>, sent: seq<T>, q': seq<T>, later: seq<T>, sentLater: seq<T>, end: seq<T>)
    requires q + told == sent + q' && sentLater <= q' + later
    ensures sent + sentLater <= q + (told + later)
    ensures q' + later == sentLater + end ==> q + (told + later) == (sent + sentLater) + end
  {
    assert q + (told + later) == (q + told) + later == sent + (q' + later);
  }

  lemma LeavesLast(s: State, run: seq<Event>, f: nat)
    requires Sound(s) && EnabledRun(s, run) && Lives(s, run, f) && f !in s.table.clients
    ensures run == []
  {}

  /** From the moment it is accepted, whatever the other clients do: a client is sent the messages that
      the steps of the server say for it, in order, none twice and none left out; and what it has not
      been sent yet is in its queue. */
  lemma SessionIsFifo(s: State, run: seq<Event>)
    requires Sound(s) && Enabled(s, Admit) && Sound(Next(s, Admit))
    requires EnabledRun(Next(s, Admit), run) && Lives(Next(s, Admit), run, Accepted(s.table))
    ensures var (n, f) := (Next(s, Admit), Accepted(s.table));
            && f < FD_SETSIZE && Sound(After(n, run)) && |After(n, run).book.queues| == FD_SETSIZE
            && SentInRun(n, run, f) <= QueuedInRun(n, run, f)
            && (f in After(n, run).table.clients ==>
                  QueuedInRun(n, run, f) == SentInRun(n, run, f) + After(n, run).book.queues[f])
  {
    hide EnabledRun, After, Lives, SentInRun, QueuedInRun, Accepted, Sound;
    var f := Accepted(s.table);
    NewClient(s);
    NoStrangersQueue(s, f);
    QueueIsFifo(Next(s, Admit), run, f);
    assert [] + QueuedInRun(Next(s, Admit), run, f) == QueuedInRun(Next(s, Admit), run, f);
  }

  /** What is no client has nothing queued, and its connection is new. */
  lemma NoStrangersQueue(s: State, f: nat)
    requires Sound(s) && f < FD_SETSIZE && f !in s.table.clients
    ensures s.book.queues[f] == [] && s.lines[f] == Idle(s.lines[f].used)
  {
    hide LineSound;
  }

  lemma NewClient(s: State)
    requires Sound(s) && Enabled(s, Admit)
    ensures Accepted(s.table) < FD_SETSIZE && Accepted(s.table) !in s.table.clients
    ensures Next(s, Admit).book == s.book && Next(s, Admit).lines == s.lines
  {
    hide LineSound, Consistent;
    AcceptedFits(s.table);
    AcceptedIsNew(s.table);
  }

  // ----- what a session is sent, in bytes

  /** What has been sent of the first message in the queue of f. */
  function BegunFor(s: State, f: nat): seq<byte>
    requires Sound(s) && f < FD_SETSIZE
  {
    Begun(Out(s.lines[f], s.book.queues[f]))
  }

  lemma BytesStep(s: State, e: Event, f: nat)
    requires Sound(s) && Enabled(s, e) && f in s.table.clients && Sound(Next(s, e)) && f < FD_SETSIZE
    ensures BegunFor(s, f) + Written(s, e, f) <= Wire(Frames(s.book.queues[f]))
    ensures f in Next(s, e).table.clients ==>
              && BegunFor(s, f) + Written(s, e, f) == Wire(Frames(Sent(s, e, f))) + BegunFor(Next(s, e), f)
              && (forall g :: g in Frames(Sent(s, e, f)) ==> Formed(g))
  {
    hide Accounted, Consistent, Receive, Send, CloseConn, Accepted, IsLast, TooLong, Frames, Wire, Give, Begun;
    hide RequestIn, AfterRead, ResultOf, LineSound, Formed, Orderly;
    Basics(s, f);
    Basics(Next(s, e), f);
    BegunIsBeginning(Out(s.lines[f], s.book.queues[f]));
    assert BegunFor(s, f) + [] == BegunFor(s, f);
    NothingOnWire();
    if e.Write? && e.fd == f {
      WroteConserves(s.lines[f], s.book.queues[f], e.answers);
      SendFollows(s.book, f, s.lines[f], e.answers);
      if f in Next(s, e).table.clients {
        WriteCloses(s, f, e.answers);
      }
    } else if f in Next(s, e).table.clients {
      LineKept(s, e, f);
    }
  }

  lemma NothingOnWire()
    ensures Frames([]) == [] && Wire(Frames([])) == []
  {}

  /** A write that gives its client up takes it out of the clients. */
  lemma WriteCloses(s: State, fd: nat, answers: seq<Answer>)
    requires Sound(s) && Enabled(s, Write(fd, answers)) && fd in Next(s, Write(fd, answers)).table.clients
    ensures Ruling(s, Write(fd, answers)) == Keep
  {
    hide Accounted, Consistent, Send, CloseConn, LineSound, Wrote, ResultOf;
  }

  /** A step that does not write to f leaves what has been sent to it alone. */
  lemma LineKept(s: State, e: Event, f: nat)
    requires Sound(s) && Enabled(s, e) && f in s.table.clients && !(e.Write? && e.fd == f)
    requires Sound(Next(s, e)) && f in Next(s, e).table.clients && f < FD_SETSIZE
    ensures BegunFor(Next(s, e), f) == BegunFor(s, f)
  {
    hide Accounted, Receive, Send, Accepted, IsLast, TooLong, RequestIn, AfterRead, Wrote, ResultOf, LineSound, Begun;
    hide Consistent;
    var q, q' := s.book.queues[f], Next(s, e).book.queues[f];
    QueueStep(s, e, f);
    assert Sent(s, e, f) + q' == q';
    QueueGrows(s.lines[f], q, q');
  }

  /** As long as f is a client: what was begun, and what the steps write, are the messages that they
      finish, in their wire form, and what is begun then.  All that is ever written is a beginning of the
      wire form of what is queued. */
  lemma {:induction false} BytesFollowMessages(s: State, run: seq<Event>, f: nat)
    requires Sound(s) && EnabledRun(s, run) && Lives(s, run, f) && f < FD_SETSIZE
    ensures Sound(After(s, run)) && |s.book.queues| == FD_SETSIZE
    ensures BegunFor(s, f) + WrittenInRun(s, run, f) <= Wire(Frames(s.book.queues[f] + QueuedInRun(s, run, f)))
    ensures f in After(s, run).table.clients ==>
              && BegunFor(s, f) + WrittenInRun(s, run, f) ==
                 Wire(Frames(SentInRun(s, run, f))) + BegunFor(After(s, run), f)
              && (forall g :: g in Frames(SentInRun(s, run, f)) ==> Formed(g))
    decreases |run|
  {
    hide Enabled, Next, Sound, Queued, Sent, Written, BegunFor, Frames, Wire, Formed;
    hide EnabledRun, After, Lives, QueuedInRun, SentInRun, WrittenInRun;
    NothingOnWire();
    Sized(s);
    if run == [] {
      NoStep(s, run, f);
      assert s.book.queues[f] + [] == s.book.queues[f];
      assert BegunFor(s, f) + [] == BegunFor(s, f) == [] + BegunFor(s, f);
      BegunWithin(s, f);
    } else {
      var e, later := run[0], run[1..];
      FirstEnabled(s, run);
      FirstStep(s, run, f);
      var n := Next(s, e);
      QueueStep(s, e, f);
      BytesStep(s, e, f);
      BytesFollowMessages(n, later, f);
      var sent, q := Sent(s, e, f), s.book.queues[f];
      if f in n.table.clients {
        var rest, sentLater := n.book.queues[f] + QueuedInRun(n, later, f), SentInRun(n, later, f);
        Carried(q, Queued(s, e, f), sent, n.book.queues[f], QueuedInRun(n, later, f), [], rest);
        assert [] + rest == rest && sent + [] == sent;
        WireJoins(sent, rest);
        WireJoins(sent, sentLater);
        BytesCarried(BegunFor(s, f), Written(s, e, f), Wire(Frames(sent)), BegunFor(n, f), WrittenInRun(n, later, f),
                     Wire(Frames(rest)), Wire(Frames(sentLater)), BegunFor(After(n, later), f));
      } else {
        LeavesLast(n, later, f);
        NoStep(n, later, f);
        WireJoins(q, QueuedInRun(s, run, f));
        assert Written(s, e, f) + [] == Written(s, e, f);
      }
    }
  }

  lemma BytesCarried(b: seq<byte>, w: seq<byte>, sent: seq<byte>, b': seq<byte>, later: seq<byte>,
                     rest: seq<byte>, sentLater: seq<byte>, end: seq<byte>)
    requires b + w == sent + b' && b' + later <= rest
    ensures b + (w + later) <= sent + rest
    ensures b' + later == sentLater + end ==> b + (w + later) == (sent + sentLater) + end
  {
    assert b + (w + later) == (b + w) + later == sent + (b' + later);
  }

  lemma WireJoins(a: seq<Message>, b: seq<Message>)
    ensures Wire(Frames(a + b)) == Wire(Frames(a)) + Wire(Frames(b))
    ensures (forall g :: g in Frames(a) ==> Formed(g)) && (forall g :: g in Frames(b) ==> Formed(g)) ==>
              forall g :: g in Frames(a + b) ==> Formed(g)
  {
    hide Frames, Wire, Formed;
    FramesConcat(a, b);
    WireConcat(Frames(a), Frames(b));
  }

  lemma BegunWithin(s: State, f: nat)
    requires Sound(s) && f < FD_SETSIZE
    ensures BegunFor(s, f) <= Wire(Frames(s.book.queues[f]))
  {
    hide Accounted, Consistent, Wire, Begun;
    Basics(s, f);
    BegunIsBeginning(Out(s.lines[f], s.book.queues[f]));
  }

  /** A client that has just been accepted. */
  predicate IsNew(s: State, f: nat) {
    && f < |s.lines| == |s.book.queues| == FD_SETSIZE && f in s.table.clients
    && s.book.queues[f] == [] && s.lines[f] == Idle(s.lines[f].used)
  }

  lemma AdmittedIsNew(s: State)
    requires Sound(s) && Enabled(s, Admit)
    ensures IsNew(Next(s, Admit), Accepted(s.table))
  {
    hide LineSound, Accepted;
    NewClient(s);
    NoStrangersQueue(s, Accepted(s.table));
  }

  /** From the moment it is accepted, whatever the others do and the system answers: the bytes that a
      client is written are a beginning of the wire form of the messages that the steps of the server say
      for it; and as long as it is kept, the complete messages in them are those that it was sent. */
  lemma SessionBytes(s: State, run: seq<Event>, f: nat)
    requires Sound(s) && EnabledRun(s, run) && Lives(s, run, f) && IsNew(s, f)
    ensures WrittenInRun(s, run, f) <= Wire(Frames(QueuedInRun(s, run, f)))
    ensures f in After(s, run).table.clients ==> Cut(WrittenInRun(s, run, f)).0 == Frames(SentInRun(s, run, f))
  {
    hide EnabledRun, After, Lives, SentInRun, QueuedInRun, WrittenInRun, BegunFor, Sound, Frames, Wire, Cut, Formed;
    BytesFollowMessages(s, run, f);
    NothingFoundInBegun(s, f);
    assert [] + QueuedInRun(s, run, f) == QueuedInRun(s, run, f);
    assert [] + WrittenInRun(s, run, f) == WrittenInRun(s, run, f);
    if f in After(s, run).table.clients {
      var sent := Frames(SentInRun(s, run, f));
      CutWire(sent, BegunFor(After(s, run), f));
      NothingFoundInBegun(After(s, run), f);
      assert sent + [] == sent;
    }
  }

  lemma NothingFoundInBegun(s: State, f: nat)
    requires Sound(s) && f < FD_SETSIZE
    ensures Cut(BegunFor(s, f)).0 == []
    ensures s.book.queues[f] == [] ==> BegunFor(s, f) == []
  {
    hide Accounted, Consistent, Cut;
    Basics(s, f);
    BegunFindsNothing(Out(s.lines[f], s.book.queues[f]));
  }

  // ----- what is found in a session's bytes

  /** What arrives for f in a run, call by call. */
  function FeedsOf(run: seq<Event>, f: nat): seq<Feed> {
    if run == [] then []
    else (if run[0].Recv? && run[0].fd == f then [run[0].feed] else []) + FeedsOf(run[1..], f)
  }

  /** A line as a receiving connection that has found some messages. */
  function IntakeOf(l: Line, frames: seq<Frame>): Intake {
    Intake(l.inward, l.stream, frames, false)
  }

  /** What a step makes of the receiving half of f. */
  function IntakeAfter(w: Intake, e: Event, f: nat): (w': Intake)
    requires Sane(w.conn)
    ensures Sane(w'.conn)
  {
    if e.Recv? && e.fd == f then Fed(w, e.feed) else w
  }

  lemma IntakeStep(s: State, e: Event, f: nat, frames: seq<Frame>)
    requires Sound(s) && Enabled(s, e) && f in s.table.clients && Sound(Next(s, e)) && f < FD_SETSIZE
    ensures var w := IntakeAfter(IntakeOf(s.lines[f], frames), e, f);
            && w.frames == frames + FoundIn(s, e, f)
            && (f in Next(s, e).table.clients ==> w == IntakeOf(Next(s, e).lines[f], w.frames))
  {
    hide Accounted, Receive, Send, CloseConn, Accepted, Framing.Take, Orderly, ResultOf, Wrote, ReadsBody, RequestOf;
    hide Consistent;
    assert frames + [] == frames;
    if e.Recv? && e.fd == f && f in Next(s, e).table.clients {
      ReceiveAborts(s.book, s.table.clients, f, Asked(s, f, e.feed, e.db));
      HangupIsGone(s.lines[f], e.feed, e.db);
    }
  }

  lemma FirstFeed(w: Intake, run: seq<Event>, f: nat)
    requires Sane(w.conn)
    ensures run == [] ==> FedAll(w, FeedsOf(run, f)) == w
    ensures run != [] ==> FedAll(w, FeedsOf(run, f)) == FedAll(IntakeAfter(w, run[0], f), FeedsOf(run[1..], f))
  {
    hide Fed, Sane;
    if run != [] && run[0].Recv? && run[0].fd == f {
      assert FeedsOf(run, f)[0] == run[0].feed && FeedsOf(run, f)[1..] == FeedsOf(run[1..], f);
    } else if run != [] {
      assert FeedsOf(run, f) == FeedsOf(run[1..], f);
    }
  }

  /** As long as f is a client, its connection is what its bytes, as they arrived, make of it. */
  lemma {:induction false} IntakeFollows(s: State, run: seq<Event>, f: nat, frames: seq<Frame>)
    requires Sound(s) && EnabledRun(s, run) && Lives(s, run, f) && f < FD_SETSIZE
    ensures Sound(After(s, run)) && |s.lines| == FD_SETSIZE && Sane(s.lines[f].inward)
    ensures var w := FedAll(IntakeOf(s.lines[f], frames), FeedsOf(run, f));
            && w.frames == frames + FoundInRun(s, run, f)
            && (f in After(s, run).table.clients ==> w == IntakeOf(After(s, run).lines[f], w.frames))
    decreases |run|
  {
    hide Enabled, Next, Sound, IntakeAfter, FedAll, FeedsOf, FoundIn, Sane, EnabledRun, After, Lives, FoundInRun;
    SaneLine(s, f);
    var w := IntakeOf(s.lines[f], frames);
    FirstFeed(w, run, f);
    if run == [] {
      NoStep(s, run, f);
      assert frames + [] == frames;
    } else {
      var e, later := run[0], run[1..];
      FirstEnabled(s, run);
      FirstStep(s, run, f);
      IntakeStep(s, e, f, frames);
      var n, found := Next(s, e), FoundIn(s, e, f);
      JoinFrames(frames, found, FoundInRun(n, later, f));
      if f in n.table.clients {
        IntakeFollows(n, later, f, frames + found);
      } else {
        LeavesLast(n, later, f);
        NoStep(n, later, f);
        FirstFeed(IntakeAfter(w, e, f), later, f);
      }
    }
  }

  lemma JoinFrames(a: seq<Frame>, b: seq<Frame>, c: seq<Frame>)
    ensures a + (b + c) == (a + b) + c
    ensures c == [] ==> a + (b + c) == a + b
  {}

  /** From the moment it is accepted: the messages found in a client's bytes are a beginning of those in
      all that has arrived from it, however that was cut up; as long as it is kept, they are all that are
      in the bytes taken. */
  lemma SessionFrames(s: State, run: seq<Event>, f: nat)
    requires Sound(s) && EnabledRun(s, run) && Lives(s, run, f) && IsNew(s, f)
    ensures FoundInRun(s, run, f) <= Cut(Arrivals(FeedsOf(run, f))).0
    ensures Sound(After(s, run)) && f < |After(s, run).lines|
    ensures f in After(s, run).table.clients ==>
              var bytes, left := Arrivals(FeedsOf(run, f)), |After(s, run).lines[f].stream|;
              left <= |bytes| && Cut(bytes[..|bytes| - left]).0 == FoundInRun(s, run, f)
  {
    hide EnabledRun, After, Lives, FoundInRun, FeedsOf, Cut, FedAll, Sound;
    IntakeFollows(s, run, f, []);
    Basics(After(s, run), f);
    assert [] + FoundInRun(s, run, f) == FoundInRun(s, run, f);
    FragmentationTransparent(FeedsOf(run, f));
  }

  // ----- one pass over a select snapshot

  /** Accepting comes first, then the clients in ascending order, each read before it is written. */
  function Rank(e: Event): nat {
    match e
    case Admit => 0
    case Recv(fd, _, _) => 2 * fd + 1
    case Write(fd, _) => 2 * fd + 2
    case Other(_) => 0
  }

  /** Strictly ascending, but for accepting several connections and for other code, which may run at
      any time: so no client is read twice, written twice, or served again after it was given up. */
  predicate InOrder(run: seq<Event>) {
    forall i, j :: 0 <= i < j < |run| && !run[i].Other? && !run[j].Other? ==>
      Rank(run[i]) < Rank(run[j]) || (run[i].Admit? && run[j].Admit?)
  }

  /** Only descriptors that select reported are read and written, and only clients of that time. */
  predicate FromSnapshot(run: seq<Event>, listen: nat, clients: set<nat>, rfds: set<nat>, wfds: set<nat>) {
    forall i :: 0 <= i < |run| ==>
      match run[i]
      case Admit => listen in rfds
      case Recv(fd, _, _) => fd in rfds && fd in clients
      case Write(fd, _) => fd in wfds && fd in clients
      case Other(_) => true
  }

  /** A pass over the snapshot up to the clients below fd. */
  predicate Partial(run: seq<Event>, fd: nat, listen: nat, clients: set<nat>, rfds: set<nat>, wfds: set<nat>) {
    && InOrder(run) && FromSnapshot(run, listen, clients, rfds, wfds)
    && forall e :: e in run ==> Rank(e) <= 2 * fd
  }

  lemma EmptyRun(fd: nat, listen: nat, clients: set<nat>, rfds: set<nat>, wfds: set<nat>)
    ensures InOrder([]) && Partial([], fd, listen, clients, rfds, wfds)
  {}

  lemma OnlyTakes(run: seq<Event>, fd: nat, listen: nat, clients: set<nat>, rfds: set<nat>, wfds: set<nat>)
    requires forall i :: 0 <= i < |run| ==> run[i].Admit?
    requires listen in rfds
    ensures Partial(run, fd, listen, clients, rfds, wfds)
  {}

  lemma NextClient(run: seq<Event>, fd: nat, listen: nat, clients: set<nat>, rfds: set<nat>, wfds: set<nat>)
    requires Partial(run, fd, listen, clients, rfds, wfds)
    ensures Partial(run, fd + 1, listen, clients, rfds, wfds)
  {}

  /** A run up to the clients below fd, extended by what is done for fd. */
  lemma Extended(run: seq<Event>, more: seq<Event>, fd: nat, r: Event, w: Event, listen: nat,
                 clients: set<nat>, rfds: set<nat>, wfds: set<nat>)
    requires Partial(run, fd, listen, clients, rfds, wfds) && InOrder(more)
    requires r.Recv? && w.Write? && r.fd == w.fd == fd && (forall e :: e in more ==> e == r || e == w || e.Other?)
    requires (r in more ==> fd in rfds * clients) && (w in more ==> fd in wfds * clients)
    ensures Partial(run + more, fd + 1, listen, clients, rfds, wfds)
  {
    assert forall i :: 0 <= i < |run| ==> run[i] in run;
    assert forall i :: 0 <= i < |more| ==> more[i] in more;
  }

  /** How many connections the run accepts. */
  function Admissions(run: seq<Event>): nat {
    if run == [] then 0 else (if run[0].Admit? then 1 else 0) + Admissions(run[1..])
  }

  /** What the accounting leaves of the cap. */
  function CapLeft(t: Table): nat {
    if t.numFd < FD_SETSIZE then FD_SETSIZE - t.numFd else 0
  }

  lemma {:induction false} AdmissionsConcat(run: seq<Event>, more: seq<Event>)
    ensures Admissions(run + more) == Admissions(run) + Admissions(more)
  {
    if run == [] {
      assert run + more == more;
    } else {
      assert (run + more)[1..] == run[1..] + more;
      AdmissionsConcat(run[1..], more);
    }
  }

  lemma {:induction false} AllAdmissions(run: seq<Event>)
    requires forall i :: 0 <= i < |run| ==> run[i].Admit?
    ensures Admissions(run) == |run|
  {
    if run != [] {
      AllAdmissions(run[1..]);
    }
  }

  lemma {:induction false} NoAdmissions(run: seq<Event>)
    requires forall i :: 0 <= i < |run| ==> !run[i].Admit?
    ensures Admissions(run) == 0
  {
    if run != [] {
      NoAdmissions(run[1..]);
    }
  }

  lemma NoAdmissionsServing(run: seq<Event>, r: Event, w: Event)
    requires r.Recv? && w.Write? && (forall e :: e in run ==> e == r || e == w || e.Other?)
    ensures Admissions(run) == 0
  {
    assert forall i :: 0 <= i < |run| ==> run[i] in run;
    NoAdmissions(run);
  }

  /** Where a select snapshot stands in a sound state. */
  lemma Snapshot(s: State)
    requires Sound(s)
    ensures s.book.wfds <= s.table.clients && s.table.clients !! s.table.extra
    ensures s.table.listen <= s.table.maxFd && forall fd :: fd in s.table.extra ==> s.table.listen < fd
    ensures forall fd :: fd in s.table.clients ==> s.table.listen < fd <= s.table.maxFd
  {}

  /** The run is one step, and steps of other code before and after it. */
  predicate Around(run: seq<Event>, e: Event) {
    exists i :: 0 <= i < |run| && run[i] == e && forall j :: 0 <= j < |run| && j != i ==> run[j].Other?
  }

  predicate OnlyOthers(run: seq<Event>) {
    forall e :: e in run ==> e.Other?
  }

  lemma IsAround(before: seq<Event>, e: Event, after: seq<Event>)
    requires OnlyOthers(before) && OnlyOthers(after)
    ensures Around(before + [e] + after, e)
  {
    var run := before + [e] + after;
    assert run[|before|] == e;
    forall j | 0 <= j < |run| && j != |before|
      ensures run[j].Other?
    {
      assert run[j] in before || run[j] in after;
    }
  }

  lemma AroundInOrder(run: seq<Event>, e: Event)
    requires Around(run, e)
    ensures InOrder(run) && e in run
    ensures forall x :: x in run ==> x == e || x.Other?
  {}

  lemma StartsAround(e: Event, after: seq<Event>)
    requires OnlyOthers(after)
    ensures Around([e], e) && Around([e] + after, e)
  {
    assert [] + [e] + [] == [e] && [] + [e] + after == [e] + after;
    IsAround([], e, []);
    IsAround([], e, after);
  }

  lemma ReadThenWritten(run: seq<Event>, more: seq<Event>, r: Event, w: Event)
    requires r.Recv? && w.Write? && r.fd == w.fd
    requires Around(run, r) && Around(more, w)
    ensures InOrder(run + more)
    ensures forall x :: x in run + more ==> x == r || x == w || x.Other?
  {}

  lemma {:induction false} RunSplit(s: State, run: seq<Event>, more: seq<Event>)
    requires Sound(s) && EnabledRun(s, run + more)
    ensures EnabledRun(s, run) && Sound(After(s, run)) && EnabledRun(After(s, run), more)
    decreases |run|
  {
    hide Sound, Enabled, Next;
    if run == [] {
      assert run + more == more;
    } else {
      NextSound(s, run[0]);
      assert (run + more)[0] == run[0] && (run + more)[1..] == run[1..] + more;
      RunSplit(Next(s, run[0]), run[1..], more);
    }
  }

  /** Without accepting, what is no client stays unserved. */
  lemma {:induction false} StrangerUnserved(s: State, run: seq<Event>, fd: nat)
    requires Sound(s) && EnabledRun(s, run) && fd !in s.table.clients
    requires forall e :: e in run ==> !e.Admit?
    ensures forall e :: e in run && Serves(e) ==> e.fd != fd
    decreases |run|
  {
    hide Sound, Next;
    if run != [] {
      NextSound(s, run[0]);
      StrangerUnserved(Next(s, run[0]), run[1..], fd);
    }
  }

  lemma {:induction false} TakesOnlyAdd(s: State, run: seq<Event>)
    requires Sound(s) && EnabledRun(s, run)
    requires forall e :: e in run ==> !Serves(e)
    ensures s.table.clients <= After(s, run).table.clients
    decreases |run|
  {
    hide Sound, Next;
    if run != [] {
      NextSound(s, run[0]);
      TakesOnlyAdd(Next(s, run[0]), run[1..]);
    }
  }

  /** In a pass, a client that is given up is not touched again, so it is not closed twice either;
      and nothing is accepted after a client was served. */
  lemma GivenUpOnce(s: State, before: seq<Event>, e: Event, later: seq<Event>)
    requires Sound(s) && EnabledRun(s, before + [e] + later) && InOrder(before + [e] + later)
    requires Serves(e)
    ensures EnabledRun(s, before + [e])
    ensures forall l :: l in later ==> !l.Admit?
    ensures e.fd !in After(s, before + [e]).table.clients ==> forall l :: l in later && Serves(l) ==> l.fd != e.fd
  {
    hide Sound, Enabled, Next, EnabledRun, After;
    RunSplit(s, before + [e], later);
    var run := before + [e] + later;
    assert run[|before|] == e;
    forall l | l in later
      ensures !l.Admit?
    {
      var j :| 0 <= j < |later| && later[j] == l;
      assert run[|before| + 1 + j] == l;
    }
    if e.fd !in After(s, before + [e]).table.clients {
      StrangerUnserved(After(s, before + [e]), later, e.fd);
    }
  }

  /** In a pass, a connection accepted meanwhile is not served. */
  lemma NewcomerWaits(s: State, before: seq<Event>, later: seq<Event>, rfds: set<nat>, wfds: set<nat>)
    requires Sound(s) && EnabledRun(s, before + [Admit] + later) && InOrder(before + [Admit] + later)
    requires FromSnapshot(before + [Admit] + later, s.table.listen, s.table.clients, rfds, wfds)
    ensures EnabledRun(s, before)
    ensures forall l :: l in later && Serves(l) ==> l.fd != Accepted(After(s, before).table)
  {
    hide Sound, Enabled, Next, EnabledRun, After, Accepted;
    var run := before + [Admit] + later;
    assert before + [Admit] + later == before + ([Admit] + later);
    RunSplit(s, before, [Admit] + later);
    assert run[|before|] == Admit;
    forall b | b in before
      ensures !Serves(b)
    {
      var j :| 0 <= j < |before| && before[j] == b;
      assert run[j] == b;
    }
    TakesOnlyAdd(s, before);
    AcceptedIsNew(After(s, before).table);
    forall l | l in later && Serves(l)
      ensures l.fd in s.table.clients
    {
      var j :| 0 <= j < |later| && later[j] == l;
      assert run[|before| + 1 + j] == l;
    }
  }
}
