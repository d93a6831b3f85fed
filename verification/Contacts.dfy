/** The contact list of chat_client/ContactsModel.cpp and the row signals it emits. */
module Contacts {
  import opened Wrappers

  datatype Contact = Contact(uid: nat, isOffline: bool, name: string)

  /** A pair of begin/end signals.  After an insertion a view asks the model for the announced row. */
  datatype Notice = RowRemoved(row: nat) | RowInserted(row: nat, item: Option<Contact>)

  /** The first row with the given uid, or the number of rows. */
  function IndexOf(list: seq<Contact>, uid: nat): (i: nat)
    ensures i <= |list|
    ensures i < |list| ==> list[i].uid == uid
    ensures forall j :: 0 <= j < i ==> list[j].uid != uid
  {
    if list == [] || list[0].uid == uid then 0 else 1 + IndexOf(list[1..], uid)
  }

  function Erase(list: seq<Contact>, row: nat): seq<Contact>
    requires row < |list|
  {
    list[..row] + list[row + 1..]
  }

  /** QList::insert; beyond the end it appends. */
  function InsertAt(list: seq<Contact>, row: nat, c: Contact): seq<Contact> {
    if row <= |list| then list[..row] + [c] + list[row..] else list + [c]
  }

  function RowOf(list: seq<Contact>, row: nat): Option<Contact> {
    if row < |list| then Some(list[row]) else None
  }

  /** The list after updateContact. */
  function Updated(list: seq<Contact>, c: Contact): seq<Contact> {
    var i := IndexOf(list, c.uid);
    if i == |list| then list
    else if c.isOffline then Erase(list, i) + [c]
    else InsertAt(Erase(list, i), 1, c)
  }

  /** Row 1, or the last row if the contact is offline or there is no row 1. */
  function NewRow(list: seq<Contact>, c: Contact): nat
    requires list != []
  {
    if c.isOffline || |list| == 1 then |list| - 1 else 1
  }

  lemma NewRowInside(list: seq<Contact>, c: Contact)
    requires list != []
    ensures NewRow(list, c) < |list|
  {}

  /** The updated contact has its new values, in its new row; all others keep theirs and their order. */
  lemma UpdatedRows(list: seq<Contact>, c: Contact)
    requires IndexOf(list, c.uid) < |list|
    ensures var (u, i) := (Updated(list, c), IndexOf(list, c.uid));
            var row := NewRow(list, c);
            && |u| == |list| && u[row] == c
            && u[..row] + u[row + 1..] == list[..i] + list[i + 1..]
  {
    hide IndexOf, InsertAt, Updated, NewRow;
    NewRowInside(list, c);
    var i := IndexOf(list, c.uid);
    var others := list[..i] + list[i + 1..];
    UpdatedInserts(list, c, others);
    InsertedRow(others, NewRow(list, c), c);
  }

  lemma UpdatedInserts(list: seq<Contact>, c: Contact, others: seq<Contact>)
    requires IndexOf(list, c.uid) < |list|
    requires others == list[..IndexOf(list, c.uid)] + list[IndexOf(list, c.uid) + 1..]
    ensures Updated(list, c) == InsertAt(others, NewRow(list, c), c)
  {
    hide IndexOf, InsertAt;
    InsertedBeyond(others, c);
  }

  lemma InsertedRow(list: seq<Contact>, row: nat, c: Contact)
    requires row <= |list|
    ensures var u := InsertAt(list, row, c);
            |u| == |list| + 1 && u[row] == c && u[..row] + u[row + 1..] == list
  {}

  lemma InsertedBeyond(list: seq<Contact>, c: Contact)
    ensures InsertAt(list, |list|, c) == list + [c]
    ensures list == [] ==> InsertAt(list, 1, c) == list + [c]
  {}

  /** The signals of updateContact. */
  function UpdateNotices(list: seq<Contact>, c: Contact): seq<Notice> {
    var i := IndexOf(list, c.uid);
    if i == |list| then []
    else
      var row := if c.isOffline then |list| - 1 else 1;
      [RowRemoved(i), RowInserted(row, RowOf(Updated(list, c), row))]
  }

  class ContactsModel {
    var contacts: seq<Contact>
    var notices: seq<Notice>

    constructor ()
      ensures contacts == [] && notices == []
    {
      contacts, notices := [], [];
    }

    method InsertContact(uid: nat, isOffline: bool, name: string)
      modifies this
      ensures contacts == old(contacts) + [Contact(uid, isOffline, name)]
      ensures notices == old(notices) + [RowInserted(|old(contacts)|, Some(Contact(uid, isOffline, name)))]
    {
      var row := |contacts|;
      contacts := contacts + [Contact(uid, isOffline, name)];
      notices := notices + [RowInserted(row, RowOf(contacts, row))];
    }

    method UpdateContact(uid: nat, isOffline: bool, name: string) returns (found: bool)
      modifies this
      ensures found == (exists i :: 0 <= i < |old(contacts)| && old(contacts)[i].uid == uid)
      ensures contacts == Updated(old(contacts), Contact(uid, isOffline, name))
      ensures notices == old(notices) + UpdateNotices(old(contacts), Contact(uid, isOffline, name))
    {
      var index := 0;
      while index < |contacts| && contacts[index].uid != uid
        invariant 0 <= index <= |contacts|
        invariant forall j :: 0 <= j < index ==> contacts[j].uid != uid
      {
        index := index + 1;
      }
      FirstMatch(contacts, uid, index);
      if index == |contacts| {
        return false;
      }
      var newContact := Contact(uid, isOffline, name);
      contacts := contacts[..index] + contacts[index + 1..];
      notices := notices + [RowRemoved(index)];
      var row;
      if isOffline {
        row := |contacts|;
        contacts := contacts + [newContact];
      } else {
        row := 1;
        contacts := InsertAt(contacts, 1, newContact);
      }
      notices := notices + [RowInserted(row, RowOf(contacts, row))];
      return true;
    }
  }

  lemma FirstMatch(list: seq<Contact>, uid: nat, i: nat)
    requires i <= |list| && (i < |list| ==> list[i].uid == uid)
    requires forall j :: 0 <= j < i ==> list[j].uid != uid
    ensures i == IndexOf(list, uid)
  {}

  // ----- the order after a run of updates

  function Run(list: seq<Contact>, ops: seq<Contact>): seq<Contact>
    decreases |ops|
  {
    if ops == [] then list else Updated(Run(list, ops[..|ops| - 1]), ops[|ops| - 1])
  }

  predicate Distinct(list: seq<Contact>) {
    forall i, j :: 0 <= i < j < |list| ==> list[i].uid != list[j].uid
  }

  predicate Has(list: seq<Contact>, uid: nat) {
    exists i :: 0 <= i < |list| && list[i].uid == uid
  }

  /** The last update of a uid in a run, or -1. */
  function LastOp(ops: seq<Contact>, uid: nat): (k: int)
    ensures -1 <= k < |ops|
    ensures k >= 0 ==> ops[k].uid == uid
    ensures forall j :: k < j < |ops| ==> ops[j].uid != uid
    decreases |ops|
  {
    if ops == [] then -1
    else if ops[|ops| - 1].uid == uid then |ops| - 1
    else LastOp(ops[..|ops| - 1], uid)
  }

  /** The place of a uid below row 0: those last set online come first, most recent first, at
      negative keys; then those never updated, in the original order; then those last set offline,
      least recent first. */
  function Key(list: seq<Contact>, ops: seq<Contact>, uid: nat): int {
    var k := LastOp(ops, uid);
    if k < 0 then IndexOf(list, uid)
    else if ops[k].isOffline then |list| + k
    else -1 - k
  }

  /** What a contact holds after the run: the last update, or else what it held before. */
  predicate Current(list: seq<Contact>, ops: seq<Contact>, c: Contact) {
    var k := LastOp(ops, c.uid);
    if k < 0 then c in list else c == ops[k]
  }

  /** Every row is one of the list and current. */
  predicate Represents(list: seq<Contact>, ops: seq<Contact>, out: seq<Contact>) {
    forall i :: 0 <= i < |out| ==> Has(list, out[i].uid) && Current(list, ops, out[i])
  }

  predicate Covers(list: seq<Contact>, out: seq<Contact>) {
    forall i :: 0 <= i < |list| ==> Has(out, list[i].uid)
  }

  predicate Ordered(list: seq<Contact>, ops: seq<Contact>, out: seq<Contact>) {
    forall i, j :: 1 <= i < j < |out| ==> Key(list, ops, out[i].uid) < Key(list, ops, out[j].uid)
  }

  /** row 0, and below it every other contact once, current, in the order of the keys. */
  predicate Canonical(list: seq<Contact>, ops: seq<Contact>, out: seq<Contact>) {
    && |out| == |list| > 0
    && out[0] == list[0]
    && (forall i :: 1 <= i < |out| ==> out[i].uid != out[0].uid)
    && Represents(list, ops, out)
    && Covers(list, out)
    && Ordered(list, ops, out)
  }

  predicate Avoids(ops: seq<Contact>, uid: nat) {
    forall i :: 0 <= i < |ops| ==> ops[i].uid != uid
  }

  lemma KeyAfter(list: seq<Contact>, ops: seq<Contact>, c: Contact, uid: nat)
    ensures LastOp(ops + [c], uid) == if uid == c.uid then |ops| else LastOp(ops, uid)
    ensures uid != c.uid ==> Key(list, ops + [c], uid) == Key(list, ops, uid)
    ensures -1 - |ops| < Key(list, ops, uid) && (Has(list, uid) ==> Key(list, ops, uid) < |list| + |ops|)
    ensures c.uid == uid ==> Key(list, ops + [c], uid) == if c.isOffline then |list| + |ops| else -1 - |ops|
  {}

  lemma CanonicalDistinct(list: seq<Contact>, ops: seq<Contact>, out: seq<Contact>)
    requires Canonical(list, ops, out)
    ensures Distinct(out)
  {}

  lemma CanonicalStart(list: seq<Contact>)
    requires list != [] && Distinct(list)
    ensures Canonical(list, [], list)
  {}

  /** Row r of the list left when row i of out is moved: to the end, or to row 1. */
  function Origin(out: seq<Contact>, i: nat, offline: bool, r: nat): nat
    requires 1 <= i < |out| && r < |out|
  {
    if offline then (if r < i then r else if r < |out| - 1 then r + 1 else i)
    else (if r == 0 then 0 else if r == 1 then i else if r <= i then r - 1 else r)
  }

  lemma UpdatedRow(out: seq<Contact>, c: Contact, r: nat)
    requires 1 <= IndexOf(out, c.uid) < |out| && r < |out|
    ensures |Updated(out, c)| == |out|
    ensures var i := IndexOf(out, c.uid);
            var o := Origin(out, i, c.isOffline, r);
            o < |out| && Updated(out, c)[r] == if o == i then c else out[o]
  {
    hide IndexOf;
  }

  lemma UpdatedFrom(out: seq<Contact>, c: Contact, o: nat)
    requires 1 <= IndexOf(out, c.uid) < |out| && o < |out|
    ensures Has(Updated(out, c), out[o].uid)
  {
    var i := IndexOf(out, c.uid);
    var r := if c.isOffline then (if o < i then o else if o == i then |out| - 1 else o - 1)
             else (if o == 0 then 0 else if o == i then 1 else if o < i then o + 1 else o);
    UpdatedRow(out, c, r);
    assert Updated(out, c)[r].uid == out[o].uid;
  }

  lemma CanonicalStep(list: seq<Contact>, ops: seq<Contact>, out: seq<Contact>, c: Contact)
    requires Canonical(list, ops, out) && Distinct(list)
    requires c.uid != list[0].uid
    ensures Canonical(list, ops + [c], Updated(out, c))
  {
    hide Key, LastOp, IndexOf;
    var i := IndexOf(out, c.uid);
    if i == |out| {
      forall j | 0 <= j < |out|
        ensures Current(list, ops + [c], out[j])
        ensures Key(list, ops + [c], out[j].uid) == Key(list, ops, out[j].uid)
      {
        KeyAfter(list, ops, c, out[j].uid);
      }
    } else {
      MovedIsCanonical(list, ops, out, c);
    }
  }

  lemma MovedIsCanonical(list: seq<Contact>, ops: seq<Contact>, out: seq<Contact>, c: Contact)
    requires Canonical(list, ops, out) && Distinct(list)
    requires c.uid != list[0].uid && IndexOf(out, c.uid) < |out|
    ensures Canonical(list, ops + [c], Updated(out, c))
  {
    hide Key, LastOp, IndexOf, Updated, Represents, Covers, Ordered;
    UpdatedRow(out, c, 0);
    CanonicalDistinct(list, ops, out);
    forall r | 1 <= r < |out|
      ensures Updated(out, c)[r].uid != out[0].uid
    {
      UpdatedRow(out, c, r);
    }
    MovedRepresents(list, ops, out, c);
    MovedCovers(list, out, c);
    MovedOrdered(list, ops, out, c);
  }

  lemma MovedRepresents(list: seq<Contact>, ops: seq<Contact>, out: seq<Contact>, c: Contact)
    requires Represents(list, ops, out) && 1 <= IndexOf(out, c.uid) < |out| && Distinct(out)
    ensures Represents(list, ops + [c], Updated(out, c))
  {
    hide Key, LastOp, Updated, Origin, Has;
    UpdatedRow(out, c, 0);
    forall r | 0 <= r < |out|
      ensures Has(list, Updated(out, c)[r].uid) && Current(list, ops + [c], Updated(out, c)[r])
    {
      UpdatedRow(out, c, r);
      KeyAfter(list, ops, c, Updated(out, c)[r].uid);
    }
  }

  lemma MovedCovers(list: seq<Contact>, out: seq<Contact>, c: Contact)
    requires Covers(list, out) && 1 <= IndexOf(out, c.uid) < |out|
    ensures Covers(list, Updated(out, c))
  {
    hide IndexOf, Updated;
    forall j | 0 <= j < |list|
      ensures Has(Updated(out, c), list[j].uid)
    {
      assert Has(out, list[j].uid);
      var o :| 0 <= o < |out| && out[o].uid == list[j].uid;
      UpdatedFrom(out, c, o);
    }
  }

  lemma MovedOrdered(list: seq<Contact>, ops: seq<Contact>, out: seq<Contact>, c: Contact)
    requires Represents(list, ops, out) && Ordered(list, ops, out)
    requires 1 <= IndexOf(out, c.uid) < |out| && Distinct(out)
    ensures Ordered(list, ops + [c], Updated(out, c))
  {
    hide Key, LastOp, IndexOf, Updated, Has, Current;
    UpdatedRow(out, c, 0);
    forall r, q | 1 <= r < q < |out|
      ensures Key(list, ops + [c], Updated(out, c)[r].uid) < Key(list, ops + [c], Updated(out, c)[q].uid)
    {
      UpdatedRow(out, c, r);
      UpdatedRow(out, c, q);
      KeyAfter(list, ops, c, Updated(out, c)[r].uid);
      KeyAfter(list, ops, c, Updated(out, c)[q].uid);
    }
  }

  /** Over every run of updates that leaves row 0 alone: row 0, then the contacts last set online,
      most recent first, then the untouched ones in their order, then those last set offline, least
      recent first; each touched one as its last update left it. */
  lemma {:induction false} RunIsCanonical(list: seq<Contact>, ops: seq<Contact>)
    requires list != [] && Distinct(list) && Avoids(ops, list[0].uid)
    ensures Canonical(list, ops, Run(list, ops))
    decreases |ops|
  {
    hide Canonical, Updated;
    if ops == [] {
      CanonicalStart(list);
    } else {
      var init, c := ops[..|ops| - 1], ops[|ops| - 1];
      RunIsCanonical(list, init);
      CanonicalStep(list, init, Run(list, init), c);
      assert init + [c] == ops;
    }
  }

  lemma CurrentUnique(list: seq<Contact>, ops: seq<Contact>, c: Contact, d: Contact)
    requires Distinct(list) && Current(list, ops, c) && Current(list, ops, d) && c.uid == d.uid
    ensures c == d
  {}

  /** Row k of one canonical list stands in row k or below of another one with the same first k rows. */
  lemma FoundBelow(list: seq<Contact>, ops: seq<Contact>, a: seq<Contact>, b: seq<Contact>, k: nat) returns (m: nat)
    requires Canonical(list, ops, a) && Canonical(list, ops, b)
    requires 1 <= k < |a| && a[..k] == b[..k]
    ensures k <= m < |b| && b[m].uid == a[k].uid
    ensures m > k ==> Key(list, ops, b[k].uid) < Key(list, ops, a[k].uid)
  {
    hide Key, LastOp, Current;
    CanonicalDistinct(list, ops, a);
    assert Has(list, a[k].uid);
    var l :| 0 <= l < |list| && list[l].uid == a[k].uid;
    assert Has(b, list[l].uid);
    assert forall r :: 0 <= r < k ==> a[..k][r] == a[r] && b[..k][r] == b[r];
    m :| 0 <= m < |b| && b[m].uid == a[k].uid;
  }

  lemma {:induction false} CanonicalPrefix(list: seq<Contact>, ops: seq<Contact>,
                                           a: seq<Contact>, b: seq<Contact>, n: nat)
    requires Distinct(list) && Canonical(list, ops, a) && Canonical(list, ops, b) && n <= |list|
    ensures a[..n] == b[..n]
  {
    hide Key, LastOp, Covers, Ordered, Current;
    if n > 0 {
      var k := n - 1;
      CanonicalPrefix(list, ops, a, b, k);
      if k > 0 {
        var m := FoundBelow(list, ops, a, b, k);
        var l := FoundBelow(list, ops, b, a, k);
        CurrentUnique(list, ops, a[k], b[k]);
      }
      assert a[..n] == a[..k] + [a[k]] && b[..n] == b[..k] + [b[k]];
    }
  }

  /** The description determines the list. */
  lemma CanonicalUnique(list: seq<Contact>, ops: seq<Contact>, a: seq<Contact>, b: seq<Contact>)
    requires Distinct(list) && Canonical(list, ops, a) && Canonical(list, ops, b)
    ensures a == b
  {
    hide Covers, Ordered, Represents;
    CanonicalPrefix(list, ops, a, b, |list|);
    assert a[..|list|] == a && b[..|list|] == b;
  }

  // ----- an update that a later one overrides

  lemma LastOpDropped(p: seq<Contact>, d: Contact, q: seq<Contact>, uid: nat)
    requires exists j :: 0 <= j < |q| && q[j].uid == d.uid
    ensures var k, l := LastOp(p + [d] + q, uid), LastOp(p + q, uid);
            && k != |p|
            && l == (if k < |p| then k else k - 1)
            && (l >= 0 ==> (p + q)[l] == (p + [d] + q)[k])
  {
    hide LastOp;
    var all, rest := p + [d] + q, p + q;
    var j :| 0 <= j < |q| && q[j].uid == d.uid;
    assert all[|p| + 1 + j] == q[j] && all[|p|] == d;
    var k := LastOp(all, uid);
    var l := if k < |p| then k else k - 1;
    forall i | l < i < |rest|
      ensures rest[i].uid != uid
    {
      assert rest[i] == all[if i < |p| then i else i + 1];
    }
    assert l >= 0 ==> rest[l] == all[k];
    LastOpIs(rest, uid, l);
  }

  lemma LastOpIs(ops: seq<Contact>, uid: nat, k: int)
    requires -1 <= k < |ops| && (k >= 0 ==> ops[k].uid == uid)
    requires forall j :: k < j < |ops| ==> ops[j].uid != uid
    ensures LastOp(ops, uid) == k
  {}

  /** Dropping an overridden update keeps the description. */
  lemma CanonicalDropped(list: seq<Contact>, p: seq<Contact>, d: Contact, q: seq<Contact>, out: seq<Contact>)
    requires exists j :: 0 <= j < |q| && q[j].uid == d.uid
    requires Canonical(list, p + [d] + q, out)
    ensures Canonical(list, p + q, out)
  {
    hide LastOp, Has;
    forall i | 0 <= i < |out|
      ensures Current(list, p + q, out[i])
    {
      LastOpDropped(p, d, q, out[i].uid);
    }
    forall i, j | 1 <= i < j < |out|
      ensures Key(list, p + q, out[i].uid) < Key(list, p + q, out[j].uid)
    {
      LastOpDropped(p, d, q, out[i].uid);
      LastOpDropped(p, d, q, out[j].uid);
      assert Has(list, out[i].uid) && Has(list, out[j].uid);
      KeyOrderDropped(list, p, d, q, out[i].uid, out[j].uid);
    }
  }

  lemma KeyOrderDropped(list: seq<Contact>, p: seq<Contact>, d: Contact, q: seq<Contact>, u: nat, v: nat)
    requires exists j :: 0 <= j < |q| && q[j].uid == d.uid
    requires Has(list, u) && Has(list, v)
    requires Key(list, p + [d] + q, u) < Key(list, p + [d] + q, v)
    ensures Key(list, p + q, u) < Key(list, p + q, v)
  {
    hide LastOp;
    LastOpDropped(p, d, q, u);
    LastOpDropped(p, d, q, v);
  }

  lemma AvoidsDropped(p: seq<Contact>, d: Contact, q: seq<Contact>, uid: nat)
    requires Avoids(p + [d] + q, uid)
    ensures Avoids(p + q, uid)
  {
    forall i | 0 <= i < |p + q|
      ensures (p + q)[i].uid != uid
    {
      assert (p + q)[i] == (p + [d] + q)[if i < |p| then i else i + 1];
    }
  }

  /** In a run that leaves row 0 alone, an update that a later one of the same contact overrides
      may be left out. */
  lemma OverriddenUpdateAbsorbed(list: seq<Contact>, p: seq<Contact>, d: Contact, q: seq<Contact>)
    requires list != [] && Distinct(list) && Avoids(p + [d] + q, list[0].uid)
    requires exists j :: 0 <= j < |q| && q[j].uid == d.uid
    ensures Run(list, p + [d] + q) == Run(list, p + q)
  {
    hide Canonical, Run, Avoids, Distinct;
    AvoidsDropped(p, d, q, list[0].uid);
    RunIsCanonical(list, p + [d] + q);
    RunIsCanonical(list, p + q);
    CanonicalDropped(list, p, d, q, Run(list, p + [d] + q));
    CanonicalUnique(list, p + q, Run(list, p + [d] + q), Run(list, p + q));
  }

  // ----- a view that replays the signals

  /** The view after one signal; None when the signal does not fit the view. */
  function Shown(view: Option<seq<Contact>>, n: Notice): Option<seq<Contact>> {
    match view
    case None => None
    case Some(v) =>
      match n
      case RowRemoved(row) => if row < |v| then Some(Erase(v, row)) else None
      case RowInserted(row, item) => if row <= |v| && item.Some? then Some(InsertAt(v, row, item.value)) else None
  }

  function Replay(view: Option<seq<Contact>>, notices: seq<Notice>): Option<seq<Contact>>
    decreases |notices|
  {
    if notices == [] then view else Replay(Shown(view, notices[0]), notices[1..])
  }

  lemma {:induction false} ReplayAppend(view: Option<seq<Contact>>, a: seq<Notice>, b: seq<Notice>)
    ensures Replay(view, a + b) == Replay(Replay(view, a), b)
    decreases |a|
  {
    hide Shown;
    if a == [] {
      assert a + b == b;
    } else {
      assert (a + b)[1..] == a[1..] + b;
      ReplayAppend(Shown(view, a[0]), a[1..], b);
    }
  }

  lemma {:induction false} ReplayNone(notices: seq<Notice>)
    ensures Replay(None, notices) == None
    decreases |notices|
  {
    if notices != [] {
      ReplayNone(notices[1..]);
    }
  }

  /** The one update whose announced row is not the row it fills: the only contact set online. */
  predicate Misannounced(list: seq<Contact>, c: Contact) {
    |list| == 1 && list[0].uid == c.uid && !c.isOffline
  }

  lemma UpdateReplayed(list: seq<Contact>, c: Contact)
    ensures Replay(Some(list), UpdateNotices(list, c)) ==
            if Misannounced(list, c) then None else Some(Updated(list, c))
  {
    hide IndexOf;
    var i := IndexOf(list, c.uid);
    if i < |list| {
      var notices := UpdateNotices(list, c);
      var erased := Erase(list, i);
      assert Shown(Some(list), notices[0]) == Some(erased);
      assert notices[1..][1..] == [];
      assert Replay(Some(list), notices) == Shown(Some(erased), notices[1]) by {
        assert notices[1..][0] == notices[1];
        assert Replay(Some(erased), notices[1..]) == Replay(Shown(Some(erased), notices[1]), notices[1..][1..]);
      }
      if Misannounced(list, c) {
        assert Updated(list, c) == [c];
      } else if c.isOffline {
        assert InsertAt(erased, |erased|, c) == erased + [c];
      }
    }
  }

  datatype Op = Insert(c: Contact) | Update(c: Contact)

  function After(list: seq<Contact>, op: Op): seq<Contact> {
    if op.Insert? then list + [op.c] else Updated(list, op.c)
  }

  function NoticesOf(list: seq<Contact>, op: Op): seq<Notice> {
    if op.Insert? then [RowInserted(|list|, Some(op.c))] else UpdateNotices(list, op.c)
  }

  function AfterAll(list: seq<Contact>, ops: seq<Op>): seq<Contact>
    decreases |ops|
  {
    if ops == [] then list else AfterAll(After(list, ops[0]), ops[1..])
  }

  function AllNotices(list: seq<Contact>, ops: seq<Op>): seq<Notice>
    decreases |ops|
  {
    if ops == [] then [] else NoticesOf(list, ops[0]) + AllNotices(After(list, ops[0]), ops[1..])
  }

  /** Some step of the run is misannounced. */
  predicate SomeMisannounced(list: seq<Contact>, ops: seq<Op>)
    decreases |ops|
  {
    ops != [] &&
    ((ops[0].Update? && Misannounced(list, ops[0].c)) || SomeMisannounced(After(list, ops[0]), ops[1..]))
  }

  /** A view that starts level with the model and replays its signals is level with it after a run
      of insertions and updates if and only if no step of the run sets an only contact online. */
  lemma {:induction false} ReplicaInStep(list: seq<Contact>, ops: seq<Op>)
    ensures Replay(Some(list), AllNotices(list, ops)) ==
            if SomeMisannounced(list, ops) then None else Some(AfterAll(list, ops))
    decreases |ops|
  {
    hide UpdateNotices, Updated, Misannounced, Shown, Replay;
    if ops == [] {
      assert Replay(Some(list), []) == Some(list) by { ReplayNothing(Some(list)); }
    } else {
      var op := ops[0];
      var first, rest := NoticesOf(list, op), AllNotices(After(list, op), ops[1..]);
      ReplayAppend(Some(list), first, rest);
      if op.Insert? {
        InsertReplayed(list, op.c);
      } else {
        UpdateReplayed(list, op.c);
      }
      ReplayNone(rest);
      ReplicaInStep(After(list, op), ops[1..]);
    }
  }

  lemma ReplayNothing(view: Option<seq<Contact>>)
    ensures Replay(view, []) == view
  {}

  lemma InsertReplayed(list: seq<Contact>, c: Contact)
    ensures Replay(Some(list), [RowInserted(|list|, Some(c))]) == Some(list + [c])
  {
    var n := [RowInserted(|list|, Some(c))];
    assert n[1..] == [];
    assert InsertAt(list, |list|, c) == list + [c];
  }

  /** A run that never touches row 0 of a list of distinct uids is announced faithfully. */
  lemma {:induction false} AvoidingRunInStep(list: seq<Contact>, ops: seq<Contact>)
    requires list != [] && Avoids(ops, list[0].uid)
    ensures !SomeMisannounced(list, seq(|ops|, i requires 0 <= i < |ops| => Update(ops[i])))
    decreases |ops|
  {
    var all := seq(|ops|, i requires 0 <= i < |ops| => Update(ops[i]));
    if ops != [] {
      var rest := ops[1..];
      assert all[1..] == seq(|rest|, i requires 0 <= i < |rest| => Update(rest[i]));
      var next := Updated(list, ops[0]);
      assert next != [] && next[0] == list[0];
      AvoidingRunInStep(next, rest);
    }
  }
}
