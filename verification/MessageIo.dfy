/** The two halves of a Conn of server/Connections.h as objects: reading messages from a descriptor and
    writing them to one. */
module MessageIo {
  import opened PartialIo
  import opened Framing

  /** recving_header, recv_len and recv_msg.  The header keeps its wire form; length is what ntohs makes
      of its last two bytes. */
  class Inbox {
    var recvingHeader: bool
    var recvLen: nat
    const header: array<byte>
    var length: nat
    var data: array<byte>

    ghost predicate Valid()
      reads this, header, data
    {
      && header.Length == HEADER && data != header
      && if recvingHeader then recvLen < HEADER
         else
           && length == LengthOf(header[..])
           && recvLen <= data.Length && (recvLen > 0 ==> data.Length == length - HEADER)
           && Sane(Body(header[..], data[..recvLen]))
    }

    ghost function View(): Inward
      requires Valid()
      reads this, header, data
    {
      if recvingHeader then Header(header[..recvLen]) else Body(header[..], data[..recvLen])
    }

    constructor ()
      ensures Valid() && View() == Header([]) && fresh(header) && fresh(data)
    {
      header, data := new byte[HEADER], new byte[0];
      recvingHeader, recvLen, length := true, 0, 0;
    }

    /** A connection where it stands: used says that data has held something. */
    constructor Resumed(c: Inward, used: bool)
      requires Sane(c)
      ensures Valid() && View() == c && fresh(header) && fresh(data)
      ensures data.Length > 0 <==> used || (c.Body? && BodySize(c.head) > 0)
    {
      hide LengthOf;
      var head := if c.Header? then c.got else c.head;
      header := new byte[HEADER](k requires 0 <= k < HEADER => if k < |head| then head[k] else 0);
      var size := if c.Body? && BodySize(c.head) > 0 then BodySize(c.head) else if used then 1 else 0;
      var got := c.got;
      data := new byte[size](k requires 0 <= k < size => if k < |got| then got[k] else 0);
      recvingHeader, recvLen := c.Header?, |got|;
      length := if c.Body? then LengthOf(c.head) else 0;
      new;
      assert header[..|head|] == head && data[..if c.Header? then 0 else |got|] == if c.Header? then [] else got;
      assert c.Body? ==> header[..] == head;
    }

    /** Where the connection stands. */
    method State() returns (c: Inward)
      requires Valid()
      ensures c == View()
    {
      c := if recvingHeader then Header(header[..recvLen]) else Body(header[..], data[..recvLen]);
    }

    /** data.resize. */
    method Resize(n: nat)
      modifies this`data
      ensures data == old(data) || fresh(data)
      ensures data.Length == n && data[..Min(n, old(data.Length))] == old(data[..Min(n, data.Length)])
    {
      if data.Length != n {
        var was := data;
        data := new byte[n](k requires 0 <= k reads was => if k < was.Length then was[k] else 0);
      }
    }

    /** The part of recv_header that reads. */
    method ReadHeader(ch: Channel) returns (res: int)
      requires header.Length == HEADER && recvLen < HEADER
      modifies this`recvLen, header, ch
      ensures var o := Transfer(old(ch.script), HEADER - old(recvLen), |old(ch.stream)|);
              && res == o.ret && ch.script == o.rest && ch.stream == old(ch.stream)[o.moved..]
              && (res > 0 ==> recvLen == old(recvLen) + res <= HEADER)
              && (res > 0 ==> header[..recvLen] == old(header[..recvLen]) + old(ch.stream)[..res])
    {
      hide Transfer, Stored;
      ghost var all, got, stream := header[..], header[..recvLen], ch.stream;
      res := ReadFromFd(ch, header, recvLen, HEADER - recvLen);
      if res > 0 {
        StoredPrefix(all, recvLen, stream[..res]);
        assert header[..][..recvLen + res] == header[..recvLen + res] == got + stream[..res];
        recvLen := recvLen + res;
      }
    }

    method RecvHeader(ch: Channel) returns (found: Found)
      requires Valid() && recvingHeader
      modifies this, header, data, ch
      ensures var t := TakeHeader(old(View()).got, old(ch.script), old(ch.stream));
              && found == t.found && ch.script == t.rest && ch.stream == old(ch.stream)[t.moved..]
              && (found != Gone ==> Valid() && View() == t.conn)
      ensures data == old(data) || fresh(data)
      ensures data.Length > 0 <==> old(data.Length) > 0 || ReadsBody(old(View()), old(ch.script), old(ch.stream))
    {
      hide Transfer, LengthOf, TakeBody, Sane;
      ghost var stream := ch.stream;
      var res := ReadHeader(ch);
      if res <= 0 {
        return Gone;
      }
      if recvLen < HEADER {
        return More;
      }
      assert header[..recvLen] == header[..];
      recvingHeader, recvLen := false, 0;
      length := 256 * (header[2] as int) + header[3] as int;
      HeaderDone(header[..], data[..recvLen]);
      found := RecvData(ch);
      var left := |ch.stream|;
      assert stream[res..][|stream| - res - left..] == stream[|stream| - left..];
    }

    lemma HeaderDone(head: seq<byte>, got: seq<byte>)
      requires |head| == HEADER && |got| == 0
      ensures LengthOf(head) == 256 * (head[2] as int) + head[3] as int && got == []
      ensures Sane(Body(head, got)) || LengthOf(head) == HEADER
    {}

    /** The part of recv_data that reads. */
    method ReadBody(ch: Channel, size: nat) returns (res: int)
      requires data != header && recvLen < size && recvLen <= data.Length && (recvLen > 0 ==> data.Length == size)
      modifies this`data, this`recvLen, data, ch
      ensures var o := Transfer(old(ch.script), size - old(recvLen), |old(ch.stream)|);
              && res == o.ret && ch.script == o.rest && ch.stream == old(ch.stream)[o.moved..]
              && (res > 0 ==> recvLen == old(recvLen) + res <= data.Length)
              && (res > 0 ==> data[..recvLen] == old(data[..recvLen]) + old(ch.stream)[..res])
      ensures (data == old(data) || fresh(data)) && data.Length == size
    {
      hide Transfer, Stored;
      ghost var stream, got := ch.stream, data[..recvLen];
      Resize(size);
      assert data[..recvLen] == got by { assert recvLen == 0 || recvLen <= Min(size, old(data.Length)); }
      ghost var all := data[..];
      res := ReadFromFd(ch, data, recvLen, size - recvLen);
      if res > 0 {
        StoredPrefix(all, recvLen, stream[..res]);
        assert data[..][..recvLen + res] == data[..recvLen + res] == got + stream[..res];
        recvLen := recvLen + res;
      }
    }

    /** A message without a body leaves data as the message before it did; parse is given that. */
    method RecvData(ch: Channel) returns (found: Found)
      requires header.Length == HEADER && data != header && !recvingHeader && length == LengthOf(header[..])
      requires recvLen <= data.Length && (recvLen > 0 ==> data.Length == length - HEADER)
      requires Sane(Body(header[..], data[..recvLen])) || (length == HEADER && recvLen == 0)
      modifies this, data, ch
      ensures var t := TakeBody(header[..], old(data[..recvLen]), old(ch.script), old(ch.stream));
              && found == t.found && ch.script == t.rest && ch.stream == old(ch.stream)[t.moved..]
              && (found != Gone ==> Valid() && View() == t.conn)
      ensures data == old(data) || fresh(data)
      ensures found.Parsed? && found.frame.body != [] ==> data[..] == found.frame.body
      ensures found.Parsed? && found.frame.body == [] ==> data == old(data) && data[..] == old(data[..])
      ensures data.Length > 0 <==> old(data.Length) > 0 || length > HEADER
      ensures length == old(length)
    {
      hide Transfer, LengthOf;
      var expectLen := length - HEADER;
      if expectLen < 0 {
        return Unknown(header[0]);
      }
      if expectLen > 0 {
        var res := ReadBody(ch, expectLen);
        if res <= 0 {
          return Gone;
        }
        if recvLen < expectLen {
          return More;
        }
        assert data[..recvLen] == data[..];
      }
      recvingHeader, recvLen := true, 0;
      return Parsed(Frame(header[..], if expectLen > 0 then data[..] else []));
    }

    method RecvMsg(ch: Channel) returns (found: Found)
      requires Valid()
      modifies this, header, data, ch
      ensures var t := Take(old(View()), old(ch.script), old(ch.stream));
              && found == t.found && ch.script == t.rest && ch.stream == old(ch.stream)[t.moved..]
              && (found != Gone ==> Valid() && View() == t.conn)
      ensures data == old(data) || fresh(data)
      ensures data.Length > 0 <==> old(data.Length) > 0 || ReadsBody(old(View()), old(ch.script), old(ch.stream))
    {
      hide Transfer, LengthOf, TakeHeader, TakeBody;
      if recvingHeader {
        found := RecvHeader(ch);
      } else {
        found := RecvData(ch);
      }
    }
  }

  /** sending_header, send_len and send_que. */
  class Outbox {
    var sendingHeader: bool
    var sendLen: nat
    var sendQue: seq<Frame>

    function View(): Outward
      reads this
    {
      Outward(sendingHeader, sendLen, sendQue)
    }

    constructor ()
      ensures View() == Outward(true, 0, [])
    {
      sendingHeader, sendLen, sendQue := true, 0, [];
    }

    /** A connection where it stands. */
    constructor Resumed(c: Outward)
      ensures View() == c
    {
      sendingHeader, sendLen, sendQue := c.inHeader, c.sent, c.queue;
    }

    method Push(f: Frame)
      requires Orderly(View()) && |f.head| == HEADER
      modifies this
      ensures Orderly(View()) && View() == old(View()).(queue := old(sendQue) + [f])
    {
      sendQue := sendQue + [f];
    }

    method SendHeader(ch: Channel) returns (fate: Fate)
      requires Orderly(View()) && sendQue != [] && sendingHeader
      modifies this, ch
      ensures var g := GiveHeader(old(sendLen), old(sendQue), old(ch.script));
              && fate == g.fate && ch.script == g.rest && ch.stream == old(ch.stream) + g.bytes
              && View() == g.conn
    {
      hide Transfer, LengthOf, GiveBody, IsLastHeader, Formed;
      var head := sendQue[0].head;
      var bytes := new byte[HEADER](k requires 0 <= k < HEADER => head[k]);
      assert bytes[..] == head;
      var res := WriteToFd(ch, bytes, sendLen, HEADER - sendLen);
      if res <= 0 {
        return Dropped;
      }
      sendLen := sendLen + res;
      if sendLen < HEADER {
        return Kept;
      }
      sendingHeader, sendLen := false, 0;
      if IsLastHeader(head) {
        return Dropped;
      }
      fate := SendData(ch);
    }

    method SendData(ch: Channel) returns (fate: Fate)
      requires sendQue != [] && |sendQue[0].head| == HEADER && !sendingHeader
      requires sendLen < |sendQue[0].body| || (sendLen == 0 && sendQue[0].body == [])
      modifies this, ch
      ensures var g := GiveBody(old(sendLen), old(sendQue), old(ch.script));
              && fate == g.fate && ch.script == g.rest && ch.stream == old(ch.stream) + g.bytes
              && View() == g.conn
    {
      hide Transfer, LengthOf;
      var body := sendQue[0].body;
      if HEADER + |body| != LengthOf(sendQue[0].head) {
        return Ended;
      }
      if |body| > 0 {
        var bytes := new byte[|body|](k requires 0 <= k < |body| => body[k]);
        assert bytes[..] == body;
        var res := WriteToFd(ch, bytes, sendLen, |body| - sendLen);
        if res <= 0 {
          return Dropped;
        }
        sendLen := sendLen + res;
        if sendLen < |body| {
          return Kept;
        }
      }
      sendingHeader, sendLen, sendQue := true, 0, sendQue[1..];
      return Kept;
    }

    method SendMsg(ch: Channel) returns (fate: Fate)
      requires Orderly(View()) && sendQue != []
      modifies this, ch
      ensures var g := Give(old(View()), old(ch.script));
              && fate == g.fate && ch.script == g.rest && ch.stream == old(ch.stream) + g.bytes
              && View() == g.conn
      ensures fate == Kept ==> Orderly(View())
    {
      hide LengthOf, GiveHeader, GiveBody, IsLastHeader;
      GiveConserves(View(), ch.script);
      if sendingHeader {
        fate := SendHeader(ch);
      } else {
        fate := SendData(ch);
      }
    }
  }

  // ----- runs carried out

  lemma {:induction false} LostStays(w: Intake, feeds: seq<Feed>)
    requires Sane(w.conn) && w.lost
    ensures FedAll(w, feeds).lost && FedAll(w, feeds).frames == w.frames
    decreases |feeds|
  {
    if feeds != [] {
      LostStays(Fed(w, feeds[0]), feeds[1..]);
    }
  }

  /** A client that is served until it is given up: the messages found are the run of the reference, a
      beginning of those that the client sent. */
  method ServeReader(feeds: seq<Feed>) returns (frames: seq<Frame>, lost: bool)
    ensures var w := FedAll(NO_INTAKE, feeds); frames == w.frames && lost == w.lost
    ensures frames <= Cut(Arrivals(feeds)).0
  {
    hide Take, Cut, FedAll;
    FragmentationTransparent(feeds);
    var inbox := new Inbox();
    var ch := new Channel([], []);
    frames, lost := [], false;
    var k := 0;
    assert feeds[k..] == feeds;
    while k < |feeds|
      invariant 0 <= k <= |feeds| && !lost
      invariant inbox.Valid() && fresh(inbox) && fresh(inbox.header) && fresh(inbox.data) && fresh(ch)
      invariant FedAll(Intake(inbox.View(), ch.stream, frames, false), feeds[k..]) == FedAll(NO_INTAKE, feeds)
    {
      ghost var w := Intake(inbox.View(), ch.stream, frames, false);
      assert feeds[k..][0] == feeds[k] && feeds[k..][1..] == feeds[k + 1..];
      FedStep(w, feeds[k..]);
      ch.stream, ch.script := ch.stream + feeds[k].bytes, feeds[k].answers;
      var found := inbox.RecvMsg(ch);
      k := k + 1;
      if found == Gone {
        LostStays(Fed(w, feeds[k - 1]), feeds[k..]);
        return frames, true;
      }
      frames := frames + FramesOf(found);
    }
    FedNone(Intake(inbox.View(), ch.stream, frames, false), feeds[k..]);
  }

  lemma FedStep(w: Intake, feeds: seq<Feed>)
    requires Sane(w.conn) && feeds != []
    ensures FedAll(w, feeds) == FedAll(Fed(w, feeds[0]), feeds[1..])
  {}

  lemma FedNone(w: Intake, feeds: seq<Feed>)
    requires Sane(w.conn) && feeds == []
    ensures FedAll(w, feeds) == w
  {}

  lemma {:induction false} NothingDone(w: Outlet, deeds: seq<Deed>)
    requires Orderly(w.conn) && AllHeaded(deeds) && w.fate != Kept
    ensures DoneAll(w, deeds) == w
    decreases |deeds|
  {
    if deeds != [] {
      NothingDone(w, deeds[1..]);
    }
  }

  lemma DoneStep(w: Outlet, deeds: seq<Deed>)
    requires Orderly(w.conn) && AllHeaded(deeds) && deeds != []
    ensures (deeds[0].Queueing? ==> |deeds[0].frame.head| == HEADER) && AllHeaded(deeds[1..])
    ensures DoneAll(w, deeds) == DoneAll(Done(w, deeds[0]), deeds[1..])
  {}

  lemma DoneNone(w: Outlet, deeds: seq<Deed>)
    requires Orderly(w.conn) && AllHeaded(deeds) && deeds == []
    ensures DoneAll(w, deeds) == w
  {}

  /** A client that is written to until it is given up or the process ends: what it gets is the run of
      the reference, a beginning of the messages queued. */
  method ServeWriter(deeds: seq<Deed>) returns (written: seq<byte>, fate: Fate)
    requires AllHeaded(deeds)
    ensures var w := DoneAll(NO_OUTLET, deeds); written == w.written && fate == w.fate
    ensures written <= Wire(DoneAll(NO_OUTLET, deeds).queued)
  {
    hide Give, Cut, DoneAll, AllHeaded, Wire, Formed;
    WrittenInOrder(deeds);
    var outbox := new Outbox();
    var ch := new Channel([], []);
    ghost var queued := [];
    fate := Kept;
    var k := 0;
    assert deeds[k..] == deeds;
    while k < |deeds|
      invariant 0 <= k <= |deeds| && fate == Kept && fresh(outbox) && fresh(ch)
      invariant Orderly(outbox.View()) && AllHeaded(deeds[k..])
      invariant DoneAll(Outlet(outbox.View(), ch.stream, queued, Kept), deeds[k..]) == DoneAll(NO_OUTLET, deeds)
    {
      ghost var w := Outlet(outbox.View(), ch.stream, queued, Kept);
      assert deeds[k..][0] == deeds[k] && deeds[k..][1..] == deeds[k + 1..];
      DoneStep(w, deeds[k..]);
      match deeds[k] {
        case Queueing(f) =>
          outbox.Push(f);
          queued := queued + [f];
        case Sending(answers) =>
          if outbox.sendQue != [] {
            ch.script := answers;
            fate := outbox.SendMsg(ch);
            if fate != Kept {
              NothingDone(Done(w, deeds[k]), deeds[k + 1..]);
              return ch.stream, fate;
            }
          }
      }
      k := k + 1;
    }
    DoneNone(Outlet(outbox.View(), ch.stream, queued, Kept), deeds[k..]);
    written := ch.stream;
  }
}
