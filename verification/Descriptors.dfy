/** The descriptor accounting of server/TCPServer.cpp against a kernel that hands out the lowest
    free descriptor. */
module Descriptors {

  /** The capacity of an fd_set. */
  const FD_SETSIZE: nat := 1024

  /** _listen_fd, _client_fds, _max_fd and _num_fd, and the descriptors above _listen_fd that other
      code of the process, the database client and the system log, holds open uncounted. */
  datatype Table = Table(listen: nat, extra: set<nat>, clients: set<nat>, maxFd: nat, numFd: int)

  /** After the constructor: only descriptors up to the listening one are counted. */
  function Start(listen: nat, extra: set<nat>): Table {
    Table(listen, extra, {}, listen, listen + 1)
  }

  /** The numbers below n. */
  function UpTo(n: nat): (below: set<nat>)
    ensures forall k: nat :: k in below <==> k < n
  {
    if n == 0 then {} else UpTo(n - 1) + {n - 1}
  }

  /** Every open descriptor of the process. */
  function Open(t: Table): set<nat> {
    UpTo(t.listen + 1) + t.extra + t.clients
  }

  /** The lowest number from k on that is not open. */
  function LowestFree(open: set<nat>, k: nat): nat
    decreases |open|
  {
    if k !in open then k else LowestFree(open - {k}, k + 1)
  }

  lemma {:induction false} LowestFreeIs(open: set<nat>, k: nat)
    ensures var fd := LowestFree(open, k);
            fd >= k && fd !in open && forall j: nat :: k <= j < fd ==> j in open
    decreases |open|
  {
    if k in open {
      var others := open - {k};
      LowestFreeIs(others, k + 1);
      forall j: nat | k <= j < LowestFree(open, k)
        ensures j in open
      {
        assert j > k ==> j in others;
      }
    }
  }

  function Accepted(t: Table): nat { LowestFree(Open(t), 0) }

  /** One round of the accept loop of read_sock. */
  function AcceptOne(t: Table): Table {
    var fd := Accepted(t);
    t.(clients := t.clients + {fd}, maxFd := if fd > t.maxFd then fd else t.maxFd, numFd := t.numFd + 1)
  }

  /** close_sock. */
  function CloseOne(t: Table, fd: nat): Table {
    t.(clients := t.clients - {fd}, numFd := t.numFd - 1)
  }

  /** _num_fd counts the listening descriptor, those below it and the clients; every client lies
      above the listening descriptor and at most at _max_fd; no client belongs to other code. */
  predicate Accounted(t: Table) {
    && t.numFd == t.listen + 1 + |t.clients| <= FD_SETSIZE
    && t.maxFd >= t.listen
    && (forall fd :: fd in t.clients ==> t.listen < fd <= t.maxFd)
    && t.clients !! t.extra
    && (forall fd :: fd in t.extra ==> fd > t.listen)
  }

  lemma AcceptedIsNew(t: Table)
    ensures Accepted(t) > t.listen && Accepted(t) !in t.clients && Accepted(t) !in t.extra
  {
    LowestFreeIs(Open(t), 0);
    assert forall k: nat :: k <= t.listen ==> k in Open(t);
  }

  lemma AcceptAccounted(t: Table)
    requires Accounted(t) && t.numFd < FD_SETSIZE
    ensures Accounted(AcceptOne(t))
  {
    hide Accepted;
    AcceptedIsNew(t);
  }

  lemma CloseAccounted(t: Table, fd: nat)
    requires Accounted(t) && fd in t.clients
    ensures Accounted(CloseOne(t, fd))
  {}

  // ----- other code of the process

  datatype OtherStep = OtherOpens | OtherCloses(fd: nat)

  /** Other code opens the lowest free descriptor, or closes one; only its own are there to close. */
  function OtherDone(t: Table, step: OtherStep): Table {
    t.(extra := match step
                case OtherOpens => t.extra + {Accepted(t)}
                case OtherCloses(fd) => t.extra - {fd})
  }

  lemma OtherAccounted(t: Table, step: OtherStep)
    requires Accounted(t)
    ensures Accounted(OtherDone(t, step))
  {
    hide Accepted;
    AcceptedIsNew(t);
  }

  /** The open descriptors, and the table, after a step of other code. */
  lemma OtherOpen(t: Table, step: OtherStep)
    requires Accounted(t) && (step.OtherCloses? ==> step.fd in t.extra)
    ensures match step
            case OtherOpens =>
              var fd := LowestFree(Open(t), 0);
              OtherDone(t, step) == t.(extra := t.extra + {fd}) && Open(OtherDone(t, step)) == Open(t) + {fd}
            case OtherCloses(fd) =>
              OtherDone(t, step) == t.(extra := t.extra - {fd}) && Open(OtherDone(t, step)) == Open(t) - {fd}
  {
    hide LowestFree, UpTo, Accounted;
    var fd := if step.OtherOpens? then LowestFree(Open(t), 0) else step.fd;
    if step.OtherCloses? {
      OthersOnly(t, fd);
    }
    OneMoved(UpTo(t.listen + 1), t.extra, t.clients, fd);
  }

  lemma OthersOnly(t: Table, fd: nat)
    requires Accounted(t) && fd in t.extra
    ensures fd !in UpTo(t.listen + 1) && fd !in t.clients
  {}

  lemma OneMoved(a: set<nat>, b: set<nat>, c: set<nat>, x: nat)
    ensures a + (b + {x}) + c == a + b + c + {x}
    ensures x !in a && x !in c ==> a + (b - {x}) + c == a + b + c - {x}
  {}

  // ----- counting

  lemma {:induction false} UpToSize(n: nat)
    ensures |UpTo(n)| == n
  {
    if n > 0 {
      UpToSize(n - 1);
    }
  }

  lemma SubsetSize(a: set<nat>, b: set<nat>)
    requires a <= b
    ensures |a| <= |b|
  {
    assert b == a + (b - a);
  }

  /** The open descriptors that an fd_set can hold and _num_fd does not count. */
  function Uncounted(t: Table): set<nat> {
    set fd | fd in t.extra && t.listen < fd < FD_SETSIZE
  }

  /** How many more clients an fd_set can hold. */
  function Room(t: Table): int {
    FD_SETSIZE - t.numFd - |Uncounted(t)|
  }

  predicate ClientsFit(t: Table) {
    forall fd :: fd in t.clients ==> fd < FD_SETSIZE
  }

  lemma DisjointSize(a: set<nat>, b: set<nat>, c: set<nat>)
    requires a !! b && (a + b) !! c
    ensures |a + b + c| == |a| + |b| + |c|
  {}

  /** What is open below FD_SETSIZE, counted. */
  lemma OpenBelow(t: Table)
    requires Accounted(t) && ClientsFit(t)
    ensures var below := UpTo(t.listen + 1) + t.clients + Uncounted(t);
            && below <= UpTo(FD_SETSIZE)
            && |below| == t.numFd + |Uncounted(t)|
            && forall k: nat :: k < FD_SETSIZE && k in Open(t) ==> k in below
  {
    hide UpTo;
    UpToSize(t.listen + 1);
    DisjointSize(UpTo(t.listen + 1), t.clients, Uncounted(t));
  }

  /** By pigeonhole: the next descriptor fits an fd_set if and only if the counted and the
      uncounted descriptors together leave room; and never are there more than that. */
  lemma AcceptedFits(t: Table)
    requires Accounted(t) && ClientsFit(t)
    ensures Accepted(t) < FD_SETSIZE <==> t.numFd + |Uncounted(t)| < FD_SETSIZE
    ensures Room(t) >= 0
  {
    hide UpTo, Uncounted, Accounted, ClientsFit, Open;
    var below := UpTo(t.listen + 1) + t.clients + Uncounted(t);
    OpenBelow(t);
    UpToSize(FD_SETSIZE);
    SubsetSize(below, UpTo(FD_SETSIZE));
    LowestFreeIs(Open(t), 0);
    if Accepted(t) < FD_SETSIZE {
      assert Accepted(t) !in below by { BelowIsOpen(t); }
      SubsetSize(below + {Accepted(t)}, UpTo(FD_SETSIZE));
    } else {
      SubsetSize(UpTo(FD_SETSIZE), below);
    }
  }

  lemma BelowIsOpen(t: Table)
    ensures UpTo(t.listen + 1) + t.clients + Uncounted(t) <= Open(t)
  {}

  // ----- all runs

  datatype Change = Accept | Close(fd: nat)

  predicate Possible(t: Table, c: Change) {
    match c
    case Accept => t.numFd < FD_SETSIZE
    case Close(fd) => fd in t.clients
  }

  function Changed(t: Table, c: Change): Table {
    match c
    case Accept => AcceptOne(t)
    case Close(fd) => CloseOne(t, fd)
  }

  /** Each change is one that the server makes in the state it has reached. */
  predicate PossibleRun(t: Table, run: seq<Change>)
    decreases |run|
  {
    run == [] || (Possible(t, run[0]) && PossibleRun(Changed(t, run[0]), run[1..]))
  }

  function RunOf(t: Table, run: seq<Change>): Table
    decreases |run|
  {
    if run == [] then t else RunOf(Changed(t, run[0]), run[1..])
  }

  /** Every descriptor accepted in the run fits an fd_set. */
  predicate AllFit(t: Table, run: seq<Change>)
    decreases |run|
  {
    run == [] ||
    ((run[0].Accept? ==> Accepted(t) < FD_SETSIZE) && AllFit(Changed(t, run[0]), run[1..]))
  }

  lemma {:induction false} RunAccounted(t: Table, run: seq<Change>)
    requires Accounted(t) && PossibleRun(t, run)
    ensures Accounted(RunOf(t, run)) && RunOf(t, run).listen == t.listen && RunOf(t, run).extra == t.extra
    decreases |run|
  {
    hide Accounted, AcceptOne, CloseOne;
    if run != [] {
      ChangeAccounted(t, run[0]);
      RunAccounted(Changed(t, run[0]), run[1..]);
    }
  }

  lemma ChangeAccounted(t: Table, c: Change)
    requires Accounted(t) && Possible(t, c)
    ensures Accounted(Changed(t, c)) && Changed(t, c).listen == t.listen && Changed(t, c).extra == t.extra
  {
    hide Accepted;
    match c
    case Accept => AcceptAccounted(t);
    case Close(fd) => CloseAccounted(t, fd);
  }

  lemma {:induction false} RunFits(t: Table, run: seq<Change>)
    requires Accounted(t) && ClientsFit(t) && PossibleRun(t, run) && Uncounted(t) == {}
    ensures AllFit(t, run)
    decreases |run|
  {
    hide Accounted, Accepted;
    if run != [] {
      ChangeAccounted(t, run[0]);
      if run[0].Accept? {
        AcceptedFits(t);
        assert Uncounted(AcceptOne(t)) == {};
      }
      RunFits(Changed(t, run[0]), run[1..]);
    }
  }

  /** n connections accepted one after another. */
  function Accepts(n: nat): seq<Change> {
    if n == 0 then [] else [Accept] + Accepts(n - 1)
  }

  /** While the accounting allows n more, and all of them fit, there is room for all of them. */
  lemma {:induction false} AcceptsFill(t: Table, n: nat)
    requires Accounted(t) && ClientsFit(t) && t.numFd + n <= FD_SETSIZE && AllFit(t, Accepts(n))
    ensures n <= Room(t)
    decreases n
  {
    hide Accepted;
    AcceptedFits(t);
    if n > 0 {
      assert Accepts(n)[1..] == Accepts(n - 1);
      AcceptAccounted(t);
      AcceptsFill(AcceptOne(t), n - 1);
      assert Uncounted(AcceptOne(t)) == Uncounted(t);
    }
  }

  lemma {:induction false} AcceptsPossible(t: Table, n: nat)
    requires t.numFd + n <= FD_SETSIZE
    ensures PossibleRun(t, Accepts(n))
    decreases n
  {
    hide Accepted;
    if n > 0 {
      assert Accepts(n)[1..] == Accepts(n - 1);
      AcceptsPossible(AcceptOne(t), n - 1);
    }
  }

  /** With an uncounted descriptor below the cap, accepting up to the cap overshoots it. */
  lemma UncountedOverflows(listen: nat, extra: set<nat>)
    requires listen < FD_SETSIZE && (forall fd :: fd in extra ==> fd > listen)
    requires Uncounted(Start(listen, extra)) != {}
    ensures var t := Start(listen, extra);
            var run := Accepts(FD_SETSIZE - listen - 1);
            PossibleRun(t, run) && !AllFit(t, run)
  {
    hide Accepted, AllFit, PossibleRun, RunOf, Accepts;
    var t := Start(listen, extra);
    var n := FD_SETSIZE - listen - 1;
    AcceptsPossible(t, n);
    if AllFit(t, Accepts(n)) {
      AcceptsFill(t, n);
    }
  }

  /** As long as other code opens and closes nothing: every run of the server keeps the accounting;
      and the cap on _num_fd keeps every accepted descriptor below FD_SETSIZE in every run, if and
      only if no descriptor between the listening one and FD_SETSIZE is open uncounted. */
  lemma CapIsEnough(listen: nat, extra: set<nat>)
    requires listen < FD_SETSIZE && (forall fd :: fd in extra ==> fd > listen)
    ensures forall run :: PossibleRun(Start(listen, extra), run) ==> Accounted(RunOf(Start(listen, extra), run))
    ensures (forall run :: PossibleRun(Start(listen, extra), run) ==> AllFit(Start(listen, extra), run))
            <==> Uncounted(Start(listen, extra)) == {}
  {
    hide AllFit, PossibleRun, RunOf, Accepts, Uncounted;
    var t := Start(listen, extra);
    forall run | PossibleRun(t, run)
      ensures Accounted(RunOf(t, run)) && (Uncounted(t) == {} ==> AllFit(t, run))
    {
      RunAccounted(t, run);
      if Uncounted(t) == {} {
        RunFits(t, run);
      }
    }
    if Uncounted(t) != {} {
      UncountedOverflows(listen, extra);
    }
  }
}
