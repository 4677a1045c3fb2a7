/** The contact table: per SIM and peer the last message and the number of unread ones, kept up to date
    by every save and delete and rebuilt in pages from the message table. */
module SmsContacts {
  import opened Wrappers
  import opened Text

  const SECOND: int := 1_000_000_000

  const RECEIVED := 1
  const SENT := 2
  const UNREAD := 0

  datatype Sms = Sms(
    id: nat, imsi: string, iccid: string, peer: string, sender: string, recipient: string, content: string,
    kind: int, status: int, timestamp: int)

  datatype Contact = Contact(iccid: string, lastId: nat, lastTimestamp: int, lastContent: string, lastType: int, unread: int)

  /** The primary key of a contact. */
  datatype Key = Key(imsi: string, peer: string)

  type Messages = map<nat, Sms>

  type Contacts = map<Key, Contact>

  function KeyOf(r: Sms): Key { Key(r.imsi, r.peer) }

  /** Earlier in time, or as early and saved before. */
  predicate Before(a: Sms, b: Sms) { a.timestamp < b.timestamp || (a.timestamp == b.timestamp && a.id < b.id) }

  predicate WellFormed(m: Messages) { forall id :: id in m ==> id > 0 && m[id].id == id }

  function Thread(m: Messages, k: Key): set<nat> { set id | id in m && KeyOf(m[id]) == k }

  predicate IsUnread(r: Sms) { r.kind == RECEIVED && r.status == UNREAD }

  function UnreadIn(m: Messages, k: Key): set<nat> { set id | id in m && KeyOf(m[id]) == k && IsUnread(m[id]) }

  predicate IsLatest(m: Messages, k: Key, id: nat) {
    id in Thread(m, k) && forall other :: other in Thread(m, k) && other != id ==> Before(m[other], m[id])
  }

  function Summary(r: Sms, unread: int): Contact { Contact(r.iccid, r.id, r.timestamp, r.content, r.kind, unread) }

  /** What the contact of a thread should be: the summary of its latest message and its unread count, and
      no contact where there is no message. */
  ghost predicate Fits(m: Messages, contacts: Contacts, k: Key) {
    if Thread(m, k) == {} then k !in contacts
    else k in contacts && exists id: nat :: IsLatest(m, k, id) && contacts[k] == Summary(m[id], |UnreadIn(m, k)|)
  }

  /** In plain terms: the contact shows the newest message of its SIM and peer, the last saved of several
      from the same second, and how many received ones are unread. */
  lemma FitsMeans(m: Messages, contacts: Contacts, k: Key)
    requires WellFormed(m) && Fits(m, contacts, k)
    ensures k in contacts <==> exists id :: id in m && m[id].imsi == k.imsi && m[id].peer == k.peer
    ensures k in contacts ==>
      var c := contacts[k];
      && c.lastId in m && m[c.lastId].imsi == k.imsi && m[c.lastId].peer == k.peer
      && c == Contact(m[c.lastId].iccid, c.lastId, m[c.lastId].timestamp, m[c.lastId].content, m[c.lastId].kind,
                      |set id | id in m && m[id].imsi == k.imsi && m[id].peer == k.peer && m[id].kind == 1 && m[id].status == 0|)
      && forall id :: id in m && m[id].imsi == k.imsi && m[id].peer == k.peer ==>
           m[id].timestamp < c.lastTimestamp || (m[id].timestamp == c.lastTimestamp && id <= c.lastId)
  {
    assert forall id :: id in m ==> (id in Thread(m, k) <==> m[id].imsi == k.imsi && m[id].peer == k.peer);
    if Thread(m, k) != {} {
      var id: nat :| IsLatest(m, k, id) && contacts[k] == Summary(m[id], |UnreadIn(m, k)|);
      assert UnreadIn(m, k) == set id | id in m && m[id].imsi == k.imsi && m[id].peer == k.peer && m[id].kind == 1 && m[id].status == 0;
    }
  }

  /** The part of it that holds whatever the timestamps are. */
  predicate Counts(m: Messages, contacts: Contacts, k: Key) {
    (k in contacts <==> Thread(m, k) != {}) && (k in contacts ==> contacts[k].unread == |UnreadIn(m, k)|)
  }

  lemma FitsCounts(m: Messages, contacts: Contacts, k: Key)
    requires Fits(m, contacts, k)
    ensures Counts(m, contacts, k)
  {
  }

  // ---- The latest message

  lemma {:induction false} SomeLatest(m: Messages, ids: set<nat>) returns (id: nat)
    requires WellFormed(m) && ids != {} && ids <= m.Keys
    ensures id in ids && forall other :: other in ids && other != id ==> Before(m[other], m[id])
    decreases |ids|
  {
    var x :| x in ids;
    id := x;
    var rest := ids - {x};
    if rest == {} {
      assert forall other :: other in ids && other != x ==> other in rest;
    } else {
      var y := SomeLatest(m, rest);
      assert m[x].id == x && m[y].id == y;
      BeforeOrders(m[x], m[y], m[y]);
      if Before(m[x], m[y]) { id := y; }
      forall other | other in ids && other != id ensures Before(m[other], m[id]) {
        assert other == x || other in rest;
        BeforeOrders(m[other], m[y], m[x]);
      }
    }
  }

  lemma BeforeOrders(a: Sms, b: Sms, c: Sms)
    ensures a.id != b.id ==> Before(a, b) || Before(b, a)
    ensures Before(a, b) && Before(b, c) ==> Before(a, c)
  {
  }

  lemma OneLatest(m: Messages, k: Key, a: nat, b: nat)
    requires IsLatest(m, k, a) && IsLatest(m, k, b)
    ensures a == b
  {
  }

  /** First in the order by timestamp and id, both descending. */
  function Latest(m: Messages, k: Key): (id: nat)
    requires WellFormed(m) && Thread(m, k) != {}
    ensures IsLatest(m, k, id)
  {
    assert exists id :: id in m && IsLatest(m, k, id) by {
      var id := SomeLatest(m, Thread(m, k));
      assert IsLatest(m, k, id);
    }
    assert forall a, b :: a in m && b in m && IsLatest(m, k, a) && IsLatest(m, k, b) ==> a == b by {
      forall a, b | IsLatest(m, k, a) && IsLatest(m, k, b) ensures a == b { OneLatest(m, k, a, b); }
    }
    var id :| id in m && IsLatest(m, k, id);
    id
  }

  // ---- The steps

  /** The update of the contact table by one message. */
  function Upsert(contacts: Contacts, r: Sms): Contacts {
    var k := KeyOf(r);
    var before := if k in contacts then contacts[k].unread else 0;
    contacts[k := Summary(r, before + if IsUnread(r) then 1 else 0)]
  }

  /** The rebuild of one contact from the messages; nothing for an empty IMSI or peer. */
  function Rebuild(m: Messages, contacts: Contacts, k0: Key): Contacts
    requires WellFormed(m)
  {
    var k := Key(Trim(k0.imsi), Trim(k0.peer));
    if k.imsi == "" || k.peer == "" then contacts
    else if Thread(m, k) == {} then contacts - {k}
    else contacts[k := Summary(m[Latest(m, k)], |UnreadIn(m, k)|)]
  }

  /** The peer of a message: the recipient of a sent one if it has one, the sender otherwise. */
  function PeerOf(kind: int, sender: string, recipient: string): string {
    if kind == SENT && Trim(recipient) != "" then Trim(recipient) else Trim(sender)
  }

  lemma GrownThread(m: Messages, r: Sms)
    requires r.id !in m
    ensures Thread(m[r.id := r], KeyOf(r)) == Thread(m, KeyOf(r)) + {r.id}
  {
    hide IsUnread;
  }

  lemma GrownUnread(m: Messages, r: Sms)
    requires r.id !in m
    ensures UnreadIn(m[r.id := r], KeyOf(r)) == UnreadIn(m, KeyOf(r)) + (if IsUnread(r) then {r.id} else {})
  {
    hide IsUnread;
  }

  lemma UnreadInThread(m: Messages, k: Key)
    ensures UnreadIn(m, k) <= Thread(m, k) <= m.Keys
  {
  }

  /** What one more message adds to its own thread. */
  lemma Grown(m: Messages, r: Sms)
    requires r.id !in m
    ensures var n := m[r.id := r]; var k := KeyOf(r);
      && Thread(n, k) == Thread(m, k) + {r.id}
      && |UnreadIn(n, k)| == |UnreadIn(m, k)| + (if IsUnread(r) then 1 else 0)
      && (Thread(m, k) == {} ==> |UnreadIn(m, k)| == 0)
  {
    hide Thread, UnreadIn, IsUnread;
    GrownThread(m, r);
    GrownUnread(m, r);
    UnreadInThread(m, KeyOf(r));
    if Thread(m, KeyOf(r)) == {} { assert UnreadIn(m, KeyOf(r)) == {}; }
  }

  lemma Elsewhere(m: Messages, r: Sms, k: Key)
    requires r.id !in m && k != KeyOf(r)
    ensures Thread(m[r.id := r], k) == Thread(m, k)
  {
  }

  lemma NewestIsLatest(m: Messages, r: Sms)
    requires r.id !in m && forall id :: id in Thread(m, KeyOf(r)) ==> Before(m[id], r)
    ensures IsLatest(m[r.id := r], KeyOf(r), r.id)
  {
    Grown(m, r);
  }

  /** A contact is never wrong where it was right, whichever thread the message belongs to, as long as
      the message is not older than its thread. */
  lemma UpsertFits(m: Messages, contacts: Contacts, r: Sms, k: Key)
    requires WellFormed(m) && r.id > 0 && r.id !in m && Fits(m, contacts, k)
    requires forall id :: id in Thread(m, KeyOf(r)) ==> Before(m[id], r)
    ensures Fits(m[r.id := r], Upsert(contacts, r), k)
  {
    hide Thread, UnreadIn, IsLatest;
    if k == KeyOf(r) {
      Grown(m, r);
      NewestIsLatest(m, r);
    } else {
      Elsewhere(m, r, k);
      hide Fits;
      ThreadIn(m, k);
      SameThread(m, m[r.id := r], contacts, Upsert(contacts, r), k);
    }
  }

  lemma ThreadIn(m: Messages, k: Key)
    ensures Thread(m, k) <= m.Keys
  {
  }

  lemma SameUnread(m: Messages, n: Messages, k: Key)
    requires Thread(m, k) == Thread(n, k) && forall id :: id in Thread(m, k) ==> m[id] == n[id]
    ensures UnreadIn(m, k) == UnreadIn(n, k)
  {
    forall id ensures id in UnreadIn(m, k) <==> id in UnreadIn(n, k) {
      assert id in Thread(m, k) <==> id in Thread(n, k);
    }
  }

  /** What happens in other threads does not matter. */
  lemma SameThread(m: Messages, n: Messages, contacts: Contacts, after: Contacts, k: Key)
    requires Thread(m, k) == Thread(n, k) && forall id :: id in Thread(m, k) ==> m[id] == n[id]
    requires (k in contacts <==> k in after) && (k in contacts ==> contacts[k] == after[k])
    ensures Fits(m, contacts, k) <==> Fits(n, after, k)
    ensures Counts(m, contacts, k) <==> Counts(n, after, k)
  {
    SameUnread(m, n, k);
    assert forall id: nat :: IsLatest(m, k, id) <==> IsLatest(n, k, id);
    hide IsLatest, Thread, UnreadIn;
  }

  /** The table stays right in the thread of a saved message exactly when the message is not older than
      the thread's latest. */
  lemma SaveFitsExactly(m: Messages, contacts: Contacts, r: Sms)
    requires WellFormed(m) && r.id > 0 && (forall id :: id in m ==> id < r.id) && Fits(m, contacts, KeyOf(r))
    ensures Fits(m[r.id := r], Upsert(contacts, r), KeyOf(r)) <==>
      Thread(m, KeyOf(r)) == {} || m[Latest(m, KeyOf(r))].timestamp <= r.timestamp
  {
    var k, n := KeyOf(r), m[r.id := r];
    Grown(m, r);
    ThreadIn(m, k);
    hide Thread, UnreadIn;
    if Thread(m, k) == {} || m[Latest(m, k)].timestamp <= r.timestamp {
      UpsertFits(m, contacts, r, k);
    } else {
      var l := Latest(m, k);
      assert l in Thread(n, k) && !Before(n[l], n[r.id]);
      assert !IsLatest(n, k, r.id);
    }
  }

  lemma UpsertCounts(m: Messages, contacts: Contacts, r: Sms, k: Key)
    requires r.id !in m && Counts(m, contacts, k)
    ensures Counts(m[r.id := r], Upsert(contacts, r), k)
  {
    hide Thread, UnreadIn;
    if k == KeyOf(r) {
      Grown(m, r);
    } else {
      Elsewhere(m, r, k);
      ThreadIn(m, k);
      SameThread(m, m[r.id := r], contacts, Upsert(contacts, r), k);
    }
  }

  predicate Plain(k: Key) { Trim(k.imsi) == k.imsi != "" && Trim(k.peer) == k.peer != "" }

  /** After a rebuild the contact is right, whatever it was before. */
  lemma RebuildFits(m: Messages, contacts: Contacts, k: Key)
    requires WellFormed(m) && Plain(k)
    ensures Fits(m, Rebuild(m, contacts, k), k)
  {
    hide Trim;
  }

  // ---- The store

  datatype Db = Db(sms: Messages, contacts: Contacts, nextId: nat)

  const EMPTY := Db(map[], map[], 1)

  datatype Op =
    | Save(imsi: string, sender: string, recipient: string, content: string, kind: int, status: int, timestamp: int, iccid: string)
    | DeleteOne(id: nat)
    | DeleteThread(imsi: string, peer: string)

  /** The row a save stores. Its timestamp is cut to the second. */
  function RowOf(db: Db, op: Op): Sms
    requires op.Save?
  {
    Sms(db.nextId, Trim(op.imsi), op.iccid, PeerOf(op.kind, Trim(op.sender), Trim(op.recipient)), Trim(op.sender), Trim(op.recipient),
        op.content, op.kind, op.status, op.timestamp - op.timestamp % SECOND)
  }

  function Insert(db: Db, r: Sms): Db {
    Db(db.sms[r.id := r], if r.peer == "" then db.contacts else Upsert(db.contacts, r), db.nextId + 1)
  }

  function Remove(db: Db, id: nat): Db
    requires WellFormed(db.sms) && id in db.sms
  {
    db.(sms := db.sms - {id}, contacts := Rebuild(db.sms - {id}, db.contacts, KeyOf(db.sms[id])))
  }

  function RemoveThread(db: Db, k: Key): Db {
    if k.imsi == "" || k.peer == "" || Thread(db.sms, k) == {} then db
    else db.(sms := db.sms - Thread(db.sms, k), contacts := db.contacts - {k})
  }

  function Apply(db: Db, op: Op): Db
    requires WellFormed(db.sms)
  {
    match op
    case Save(_, _, _, _, _, _, _, _) => Insert(db, RowOf(db, op))
    case DeleteOne(id) => if id in db.sms then Remove(db, id) else db
    case DeleteThread(imsi, peer) => RemoveThread(db, Key(Trim(imsi), Trim(peer)))
  }

  /** What a save stores: the message as given but for trimmed addresses and a timestamp in whole seconds,
      under its peer, which is whom it was sent to or who sent it; and that thread's contact shows it, with
      one more unread message exactly if it is a received one that was not read. */
  lemma SavedExactly(db: Db, op: Op)
    requires WellFormed(db.sms) && op.Save?
    ensures var n, id := Apply(db, op), db.nextId;
      var peer := if op.kind == 2 && Trim(op.recipient) != "" then Trim(op.recipient) else Trim(op.sender);
      var k := Key(Trim(op.imsi), peer);
      && id in n.sms
      && (var r := n.sms[id];
          && r.imsi == Trim(op.imsi) && r.peer == peer && r.sender == Trim(op.sender) && r.recipient == Trim(op.recipient)
          && r.iccid == op.iccid && r.content == op.content && r.kind == op.kind && r.status == op.status
          && 0 <= op.timestamp - r.timestamp < 1_000_000_000 && r.timestamp % 1_000_000_000 == 0)
      && (forall other :: other in db.sms && other != id ==> other in n.sms && n.sms[other] == db.sms[other])
      && (forall other :: other in n.sms && other != id ==> other in db.sms)
      && (forall other :: other != k ==>
            (other in n.contacts <==> other in db.contacts) && (other in db.contacts ==> n.contacts[other] == db.contacts[other]))
      && (peer == "" ==> n.contacts == db.contacts)
      && (peer != "" ==>
            && k in n.contacts
            && var c := n.contacts[k];
               && c.lastId == id && c.lastContent == op.content && c.lastType == op.kind && c.iccid == op.iccid
               && c.lastTimestamp == n.sms[id].timestamp
               && c.unread == (if k in db.contacts then db.contacts[k].unread else 0) + if op.kind == 1 && op.status == 0 then 1 else 0)
  {
    TrimIdempotent(op.sender);
    TrimIdempotent(op.recipient);
    hide Trim;
  }

  lemma InThread(m: Messages, k: Key, id: nat)
    ensures id in Thread(m, k) <==> id in m && m[id].imsi == k.imsi && m[id].peer == k.peer
  {
  }

  /** What a deletion removes: one message; or the messages of one thread, with its contact. */
  lemma DeletedExactly(db: Db, op: Op)
    requires WellFormed(db.sms) && !op.Save?
    ensures var n := Apply(db, op);
      && (forall id :: id in n.sms ==> id in db.sms && n.sms[id] == db.sms[id])
      && (op.DeleteOne? ==> forall id :: id in db.sms ==> (id in n.sms <==> id != op.id))
      && (op.DeleteThread? ==>
            var imsi, peer := Trim(op.imsi), Trim(op.peer);
            && (forall id :: id in db.sms ==>
                  (id in n.sms <==> imsi == "" || peer == "" || db.sms[id].imsi != imsi || db.sms[id].peer != peer))
            && (forall k :: k in db.contacts && k != Key(imsi, peer) ==> k in n.contacts && n.contacts[k] == db.contacts[k]))
  {
    if op.DeleteThread? {
      forall id: nat { InThread(db.sms, Key(Trim(op.imsi), Trim(op.peer)), id); }
    }
    hide Trim, Rebuild, Thread;
  }

  predicate RowsFit(db: Db) {
    && WellFormed(db.sms) && db.nextId > 0
    && forall id :: id in db.sms ==> id < db.nextId && Trim(db.sms[id].imsi) == db.sms[id].imsi && Trim(db.sms[id].peer) == db.sms[id].peer
  }

  predicate Inv(db: Db) {
    && RowsFit(db)
    && forall k :: k in AllKeys(db) && k.imsi != "" && k.peer != "" ==> Counts(db.sms, db.contacts, k)
  }

  /** The keys that occur at all. */
  function AllKeys(db: Db): set<Key> { db.contacts.Keys + set id | id in db.sms :: KeyOf(db.sms[id]) }

  lemma AbsentCounts(db: Db, k: Key)
    requires k !in AllKeys(db)
    ensures Counts(db.sms, db.contacts, k)
  {
    assert Thread(db.sms, k) == {};
  }

  lemma InvCounts(db: Db, k: Key)
    requires Inv(db) && k.imsi != "" && k.peer != ""
    ensures Counts(db.sms, db.contacts, k)
  {
    if k !in AllKeys(db) { AbsentCounts(db, k); }
  }

  lemma RowsKept(db: Db, op: Op)
    requires RowsFit(db)
    ensures RowsFit(Apply(db, op))
  {
    hide Trim, Upsert, Rebuild, Thread, PeerOf;
    match op
    case Save(_, _, _, _, _, _, _, _) =>
      TrimIdempotent(op.imsi);
      PeerIsTrimmed(op.kind, Trim(op.sender), Trim(op.recipient));
    case _ =>
  }

  lemma PeerIsTrimmed(kind: int, sender: string, recipient: string)
    ensures Trim(PeerOf(kind, sender, recipient)) == PeerOf(kind, sender, recipient)
  {
    TrimIdempotent(sender);
    TrimIdempotent(recipient);
  }

  /** Saving changes the contact of the saved message's thread only. */
  lemma InsertLocal(db: Db, r: Sms, k: Key)
    requires RowsFit(db) && r.id == db.nextId && k != KeyOf(r)
    ensures var n := Insert(db, r);
      && (Fits(db.sms, db.contacts, k) <==> Fits(n.sms, n.contacts, k))
      && (Counts(db.sms, db.contacts, k) <==> Counts(n.sms, n.contacts, k))
  {
    hide Trim;
    var n := Insert(db, r);
    assert Thread(db.sms, k) == Thread(n.sms, k);
    SameThread(db.sms, n.sms, db.contacts, n.contacts, k);
  }

  lemma RemoveLocal(db: Db, id: nat, k: Key)
    requires RowsFit(db) && id in db.sms && k != KeyOf(db.sms[id])
    ensures var n := Remove(db, id);
      && (Fits(db.sms, db.contacts, k) <==> Fits(n.sms, n.contacts, k))
      && (Counts(db.sms, db.contacts, k) <==> Counts(n.sms, n.contacts, k))
  {
    hide Trim;
    var n := Remove(db, id);
    assert Thread(db.sms, k) == Thread(n.sms, k);
    SameThread(db.sms, n.sms, db.contacts, n.contacts, k);
  }

  lemma RemoveThreadLocal(db: Db, t: Key, k: Key)
    requires RowsFit(db) && k != t
    ensures var n := RemoveThread(db, t);
      && (Fits(db.sms, db.contacts, k) <==> Fits(n.sms, n.contacts, k))
      && (Counts(db.sms, db.contacts, k) <==> Counts(n.sms, n.contacts, k))
  {
    hide Trim;
    var n := RemoveThread(db, t);
    assert Thread(db.sms, k) == Thread(n.sms, k);
    SameThread(db.sms, n.sms, db.contacts, n.contacts, k);
  }

  lemma RemovedFits(db: Db, id: nat)
    requires RowsFit(db) && id in db.sms && KeyOf(db.sms[id]).imsi != "" && KeyOf(db.sms[id]).peer != ""
    ensures var n := Remove(db, id); Fits(n.sms, n.contacts, KeyOf(db.sms[id]))
  {
    hide Rebuild, Fits, Trim;
    assert Plain(KeyOf(db.sms[id]));
    RebuildFits(db.sms - {id}, db.contacts, KeyOf(db.sms[id]));
  }

  lemma RemovedThreadFits(db: Db, k: Key)
    requires RowsFit(db) && k.imsi != "" && k.peer != "" && Counts(db.sms, db.contacts, k)
    ensures var n := RemoveThread(db, k); Fits(n.sms, n.contacts, k) && Thread(n.sms, k) == {}
  {
    hide Trim;
    var n := RemoveThread(db, k);
    assert Thread(n.sms, k) == {};
  }

  lemma CountsKept(db: Db, op: Op, k: Key)
    requires RowsFit(db) && k.imsi != "" && k.peer != "" && Counts(db.sms, db.contacts, k)
    ensures var n := Apply(db, op); Counts(n.sms, n.contacts, k)
  {
    hide Trim, Fits, Counts, Insert, Remove, RemoveThread;
    match op
    case Save(_, _, _, _, _, _, _, _) =>
      var r := RowOf(db, op);
      if KeyOf(r) == k {
        UpsertCounts(db.sms, db.contacts, r, k);
        InsertIs(db, r);
      } else {
        InsertLocal(db, r, k);
      }
    case DeleteOne(id) =>
      if id in db.sms {
        if KeyOf(db.sms[id]) == k {
          RemovedFits(db, id);
          FitsCounts(Remove(db, id).sms, Remove(db, id).contacts, k);
        } else {
          RemoveLocal(db, id, k);
        }
      }
    case DeleteThread(imsi, peer) =>
      var t := Key(Trim(imsi), Trim(peer));
      if t == k {
        RemovedThreadFits(db, k);
        FitsCounts(RemoveThread(db, k).sms, RemoveThread(db, k).contacts, k);
      } else {
        RemoveThreadLocal(db, t, k);
      }
  }

  lemma InsertIs(db: Db, r: Sms)
    requires r.peer != ""
    ensures Insert(db, r) == Db(db.sms[r.id := r], Upsert(db.contacts, r), db.nextId + 1)
  {
  }

  lemma ApplyKeeps(db: Db, op: Op)
    requires Inv(db)
    ensures Inv(Apply(db, op))
  {
    hide Trim, Counts, Apply;
    RowsKept(db, op);
    var n := Apply(db, op);
    forall k | k in AllKeys(n) && k.imsi != "" && k.peer != "" ensures Counts(n.sms, n.contacts, k) {
      InvCounts(db, k);
      CountsKept(db, op, k);
    }
  }

  // ---- Runs

  datatype Run = Run(states: seq<Db>, ops: seq<Op>)

  ghost predicate IsRun(r: Run) {
    && |r.states| == |r.ops| + 1 && r.states[0] == EMPTY
    && forall i :: 0 <= i < |r.ops| ==> WellFormed(r.states[i].sms) && r.states[i + 1] == Apply(r.states[i], r.ops[i])
  }

  lemma {:induction false} Always(r: Run, n: nat)
    requires IsRun(r) && n < |r.states|
    ensures Inv(r.states[n])
  {
    hide Apply, Inv;
    if n == 0 {
      EmptyFits();
    } else {
      Always(r, n - 1);
      ApplyKeeps(r.states[n - 1], r.ops[n - 1]);
    }
  }

  lemma EmptyFits()
    ensures Inv(EMPTY)
  {
  }

  /** After any run of saves and deletes, with timestamps in any order: a contact exists exactly where
      there is a message, and its unread count is the number of received unread messages. */
  lemma IndexCounts(r: Run, n: nat, k: Key)
    requires IsRun(r) && n < |r.states| && k.imsi != "" && k.peer != ""
    ensures var db := r.states[n];
      && (k in db.contacts <==> exists id :: id in db.sms && KeyOf(db.sms[id]) == k)
      && (k in db.contacts ==> db.contacts[k].unread == |UnreadIn(db.sms, k)|)
  {
    hide Apply, Inv;
    Always(r, n);
    InvCounts(r.states[n], k);
    assert forall id :: id in Thread(r.states[n].sms, k) <==> id in r.states[n].sms && KeyOf(r.states[n].sms[id]) == k;
  }

  /** A save that is not older than the messages its thread has left. */
  predicate InOrder(db: Db, op: Op)
    requires WellFormed(db.sms)
  {
    op.Save? ==> forall id :: id in Thread(db.sms, KeyOf(RowOf(db, op))) ==> db.sms[id].timestamp <= RowOf(db, op).timestamp
  }

  lemma FitsKept(db: Db, op: Op, k: Key)
    requires RowsFit(db) && InOrder(db, op) && k.imsi != "" && k.peer != "" && Fits(db.sms, db.contacts, k)
    ensures var n := Apply(db, op); Fits(n.sms, n.contacts, k)
  {
    hide Trim, Fits, Insert, Remove, RemoveThread;
    match op
    case Save(_, _, _, _, _, _, _, _) =>
      var r := RowOf(db, op);
      if KeyOf(r) == k {
        UpsertFits(db.sms, db.contacts, r, k);
        InsertIs(db, r);
      } else {
        InsertLocal(db, r, k);
      }
    case DeleteOne(id) =>
      if id in db.sms {
        if KeyOf(db.sms[id]) == k { RemovedFits(db, id); } else { RemoveLocal(db, id, k); }
      }
    case DeleteThread(imsi, peer) =>
      var t := Key(Trim(imsi), Trim(peer));
      if t == k {
        FitsCounts(db.sms, db.contacts, k);
        RemovedThreadFits(db, k);
      } else {
        RemoveThreadLocal(db, t, k);
      }
  }

  /** With saves in order, every contact is exactly what a rebuild would make of the messages. */
  lemma {:induction false} IndexIsExact(r: Run, n: nat, k: Key)
    requires IsRun(r) && n < |r.states| && k.imsi != "" && k.peer != ""
    requires forall i :: 0 <= i < n ==> InOrder(r.states[i], r.ops[i])
    ensures Fits(r.states[n].sms, r.states[n].contacts, k)
  {
    hide Apply, InOrder;
    if n == 0 {
      assert Thread(EMPTY.sms, k) == {};
    } else {
      hide Fits, Inv;
      IndexIsExact(r, n - 1, k);
      Always(r, n - 1);
      assert RowsFit(r.states[n - 1]) by { InvRows(r.states[n - 1]); }
      FitsKept(r.states[n - 1], r.ops[n - 1], k);
    }
  }

  lemma InvRows(db: Db)
    requires Inv(db)
    ensures RowsFit(db)
  {
  }

  /** A message of a SIM without IMSI is deleted without touching its contact. The contact stays right
      exactly when the SIM has an IMSI, or the message was neither the latest of its thread nor unread. */
  lemma DeleteFitsExactly(db: Db, id: nat)
    requires RowsFit(db) && id in db.sms && KeyOf(db.sms[id]).peer != "" && Fits(db.sms, db.contacts, KeyOf(db.sms[id]))
    ensures var k := KeyOf(db.sms[id]); var n := Apply(db, DeleteOne(id));
      Fits(n.sms, n.contacts, k) <==> k.imsi != "" || (!IsLatest(db.sms, k, id) && !IsUnread(db.sms[id]))
  {
    hide Trim, Fits, Rebuild, IsLatest;
    var k := KeyOf(db.sms[id]);
    assert id in Thread(db.sms, k);
    if k.imsi != "" {
      RemovedFits(db, id);
    } else {
      EmptyImsi(db, id);
    }
  }

  lemma EmptyImsi(db: Db, id: nat)
    requires RowsFit(db) && id in db.sms && db.sms[id].imsi == "" && db.sms[id].peer != "" && Fits(db.sms, db.contacts, KeyOf(db.sms[id]))
    ensures var k := KeyOf(db.sms[id]); var n := Remove(db, id);
      Fits(n.sms, n.contacts, k) <==> !IsLatest(db.sms, k, id) && !IsUnread(db.sms[id])
  {
    hide Trim;
    assert Trim("") == "" by { TrimOfEmpty(); }
    assert Remove(db, id).contacts == db.contacts;
    assert id in Thread(db.sms, KeyOf(db.sms[id]));
    Shrunk(db.sms, db.contacts, id);
  }

  lemma TrimOfEmpty()
    ensures Trim("") == ""
  {
  }

  lemma Smaller(m: Messages, id: nat)
    requires id in m
    ensures var k := KeyOf(m[id]); var n := m - {id};
      && Thread(n, k) == Thread(m, k) - {id} && UnreadIn(n, k) == UnreadIn(m, k) - {id}
      && (id in UnreadIn(m, k) <==> IsUnread(m[id]))
  {
    hide IsUnread;
  }

  /** Without the message the untouched contact still fits unless the message was in it. */
  lemma Shrunk(m: Messages, contacts: Contacts, id: nat)
    requires WellFormed(m) && id in m && Fits(m, contacts, KeyOf(m[id])) && id in Thread(m, KeyOf(m[id]))
    ensures Fits(m - {id}, contacts, KeyOf(m[id])) <==> !IsLatest(m, KeyOf(m[id]), id) && !IsUnread(m[id])
  {
    hide Thread, UnreadIn;
    var k, n := KeyOf(m[id]), m - {id};
    var l := Latest(m, k);
    Smaller(m, id);
    var x: nat :| IsLatest(m, k, x) && contacts[k] == Summary(m[x], |UnreadIn(m, k)|);
    OneLatest(m, k, x, l);
    if IsLatest(m, k, id) { OneLatest(m, k, id, l); }
    ThreadIn(m, k);
    if id != l && !IsUnread(m[id]) {
      assert UnreadIn(n, k) == UnreadIn(m, k);
      assert IsLatest(n, k, l) && n[l] == m[l];
    }
  }

  // ---- The paged backfill

  /** The keyset cursor: the stamp of the last message of the page before. */
  datatype Cursor = Cursor(timestamp: int, id: nat)

  predicate Past(cursor: Option<Cursor>, r: Sms) {
    cursor.None? || r.timestamp > cursor.value.timestamp || (r.timestamp == cursor.value.timestamp && r.id > cursor.value.id)
  }

  function Rest(m: Messages, cursor: Option<Cursor>): set<nat> { set id | id in m && Past(cursor, m[id]) }

  /** What the query by timestamp and id, both ascending, returns: up to limit messages past the cursor,
      in order, and none left out between them. */
  ghost predicate IsPage(m: Messages, cursor: Option<Cursor>, limit: nat, page: seq<nat>) {
    && (forall i :: 0 <= i < |page| ==> page[i] in Rest(m, cursor))
    && (forall i, j :: 0 <= i < j < |page| ==> Before(m[page[i]], m[page[j]]))
    && (forall id :: id in Rest(m, cursor) && id !in page ==> |page| == limit && forall i :: 0 <= i < |page| ==> Before(m[page[i]], m[id]))
    && |page| <= limit
  }

  lemma {:induction false} SomeFirst(m: Messages, ids: set<nat>) returns (id: nat)
    requires WellFormed(m) && ids != {} && ids <= m.Keys
    ensures id in ids && forall other :: other in ids && other != id ==> Before(m[id], m[other])
    decreases |ids|
  {
    var x :| x in ids;
    id := x;
    var rest := ids - {x};
    if rest != {} {
      var y := SomeFirst(m, rest);
      if Before(m[y], m[x]) { id := y; }
    }
  }

  predicate IsFirst(m: Messages, ids: set<nat>, id: nat)
    requires ids <= m.Keys
  {
    id in ids && forall other :: other in ids && other != id ==> Before(m[id], m[other])
  }

  function First(m: Messages, ids: set<nat>): (id: nat)
    requires WellFormed(m) && ids != {} && ids <= m.Keys
    ensures IsFirst(m, ids, id)
  {
    assert exists id :: id in ids && IsFirst(m, ids, id) by {
      var id := SomeFirst(m, ids);
      assert IsFirst(m, ids, id);
    }
    var id :| id in ids && IsFirst(m, ids, id);
    id
  }

  /** The query itself. */
  method Query(m: Messages, cursor: Option<Cursor>, limit: nat) returns (page: seq<nat>)
    requires WellFormed(m) && limit > 0
    ensures IsPage(m, cursor, limit, page)
    ensures page == [] <==> Rest(m, cursor) == {}
  {
    var rest := Rest(m, cursor);
    page := [];
    while rest != {} && |page| < limit
      invariant |page| <= limit && rest <= Rest(m, cursor)
      invariant forall id :: id in Rest(m, cursor) <==> id in rest || id in page
      invariant forall i :: 0 <= i < |page| ==> page[i] in m && page[i] !in rest
      invariant forall i, j :: 0 <= i < j < |page| ==> Before(m[page[i]], m[page[j]])
      invariant forall i, id :: 0 <= i < |page| && id in rest ==> Before(m[page[i]], m[id])
      invariant rest != Rest(m, cursor) ==> page != []
      decreases rest
    {
      var id := First(m, rest);
      page := page + [id];
      rest := rest - {id};
    }
    assert page != [] ==> page[0] in page;
  }

  /** The row as the backfill leaves it: a blank peer is filled in where the message gives one. */
  function Filled(r: Sms): Sms {
    var p := PeerOf(r.kind, r.sender, r.recipient);
    if Trim(r.peer) == "" && p != "" then r.(peer := p) else r
  }

  /** Only a blank peer changes: to whom a sent message went, or else to whom it came from, if either is
      known. */
  lemma FilledExactly(r: Sms)
    ensures var n := Filled(r);
      && n.(peer := r.peer) == r
      && (Trim(r.peer) != "" ==> n == r)
      && (Trim(r.peer) == "" && r.kind == 2 && Trim(r.recipient) != "" ==> n.peer == Trim(r.recipient))
      && (Trim(r.peer) == "" && !(r.kind == 2 && Trim(r.recipient) != "") ==>
            n.peer == if Trim(r.sender) != "" then Trim(r.sender) else r.peer)
  {
    hide Trim;
  }

  function AllFilled(m: Messages): Messages { map id | id in m :: Filled(m[id]) }

  /** The contacts are right for the messages in part, and there are no others. */
  ghost predicate Rebuilt(part: Messages, contacts: Contacts) {
    forall k: Key :: if Trim(k.peer) == "" then k !in contacts else Fits(part, contacts, k)
  }

  /** After a backfill a rebuild of any single contact changes nothing. */
  lemma RebuildAgrees(m: Messages, contacts: Contacts, k: Key)
    requires WellFormed(m) && Rebuilt(m, contacts) && Plain(k)
    ensures Rebuild(m, contacts, k) == contacts
  {
    hide Rebuilt, Trim, UnreadIn, Thread;
    RebuiltAt(m, contacts, k);
    ThreadIn(m, k);
    if Thread(m, k) != {} {
      var x: nat :| IsLatest(m, k, x) && contacts[k] == Summary(m[x], |UnreadIn(m, k)|);
      OneLatest(m, k, x, Latest(m, k));
    }
  }

  lemma RebuiltAt(m: Messages, contacts: Contacts, k: Key)
    requires Rebuilt(m, contacts) && Trim(k.peer) != ""
    ensures Fits(m, contacts, k)
  {
    hide Fits, Trim;
  }

  lemma StartRebuilt()
    ensures Rebuilt(map[], map[])
  {
    assert forall k: Key :: Thread(map[], k) == {};
  }

  /** The contacts after one more message, the newest so far. */
  function Visit(contacts: Contacts, r: Sms): Contacts { if Trim(r.peer) == "" then contacts else Upsert(contacts, r) }

  lemma VisitRebuilds(part: Messages, contacts: Contacts, r: Sms)
    requires WellFormed(part) && r.id > 0 && r.id !in part && Rebuilt(part, contacts)
    requires forall id :: id in part ==> Before(part[id], r)
    ensures Rebuilt(part[r.id := r], Visit(contacts, r))
  {
    hide Trim, Fits, Upsert;
    var n, after := part[r.id := r], Visit(contacts, r);
    forall k: Key ensures if Trim(k.peer) == "" then k !in after else Fits(n, after, k) {
      if Trim(k.peer) == "" {
        VisitOther(contacts, r, k);
      } else if Trim(r.peer) == "" {
        assert Thread(part, k) == Thread(n, k);
        SameThread(part, n, contacts, after, k);
      } else {
        UpsertFits(part, contacts, r, k);
      }
    }
  }

  lemma VisitOther(contacts: Contacts, r: Sms, k: Key)
    requires Trim(k.peer) == "" && k !in contacts
    ensures k !in Visit(contacts, r)
  {
    hide Trim;
  }

  predicate NeedsBackfill(m: Messages, contacts: Contacts) {
    m != map[] && (contacts == map[] || exists id :: id in m && m[id].peer == "")
  }

  // ---- The state between two messages of the backfill

  function Stamp(r: Sms): Option<Cursor> { Some(Cursor(r.timestamp, r.id)) }

  /** The messages that are not past the cursor, as the backfill leaves them. */
  function Part(was: Messages, cursor: Option<Cursor>): Messages {
    map id | id in was && !Past(cursor, was[id]) :: Filled(was[id])
  }

  /** Up to the cursor the rows are filled, the contacts rebuilt, and each message was visited once. */
  ghost predicate Halfway(was: Messages, now: Messages, contacts: Contacts, cursor: Option<Cursor>, visited: seq<nat>) {
    && WellFormed(was) && now.Keys == was.Keys
    && (forall id :: id in was ==> now[id] == if Past(cursor, was[id]) then was[id] else Filled(was[id]))
    && Rebuilt(Part(was, cursor), contacts)
    && (forall id :: id in visited <==> id in was && !Past(cursor, was[id]))
    && (forall i, j :: 0 <= i < j < |visited| ==> visited[i] != visited[j])
  }

  lemma FilledKeeps(r: Sms)
    ensures Filled(r).id == r.id && Filled(r).timestamp == r.timestamp
  {
  }

  lemma HalfwayStarts(was: Messages)
    requires WellFormed(was)
    ensures Halfway(was, was, map[], None, [])
  {
    hide Rebuilt, Filled;
    StartRebuilt();
    assert Part(was, None) == map[];
  }

  lemma HalfwayEnds(was: Messages, now: Messages, contacts: Contacts, cursor: Option<Cursor>, visited: seq<nat>)
    requires Halfway(was, now, contacts, cursor, visited) && Rest(was, cursor) == {}
    ensures now == AllFilled(was) && Rebuilt(now, contacts)
    ensures forall id :: id in visited <==> id in now
    ensures forall i, j :: 0 <= i < j < |visited| ==> visited[i] != visited[j]
  {
    hide Rebuilt, Filled;
    assert forall id :: id in was ==> id !in Rest(was, cursor);
    assert now == AllFilled(was) == Part(was, cursor);
  }

  /** An interrupted backfill leaves the contacts right exactly when no message it did not reach has a
      peer. */
  lemma InterruptedIsRight(was: Messages, now: Messages, contacts: Contacts, cursor: Option<Cursor>, visited: seq<nat>)
    requires Halfway(was, now, contacts, cursor, visited)
    ensures Rebuilt(now, contacts) <==> forall id :: id in Rest(was, cursor) ==> Trim(now[id].peer) == ""
  {
    hide Trim, Filled, Fits, Rebuilt;
    HalfwayStamps(was, now, contacts, cursor, visited);
    if forall id :: id in Rest(was, cursor) ==> Trim(now[id].peer) == "" {
      RestIsBlank(was, now, contacts, cursor);
    } else {
      var id :| id in Rest(was, cursor) && Trim(now[id].peer) != "";
      UnreachedIsMissing(was, now, contacts, cursor, id);
    }
  }

  lemma RestIsBlank(was: Messages, now: Messages, contacts: Contacts, cursor: Option<Cursor>)
    requires WellFormed(now) && now.Keys == was.Keys && Rebuilt(Part(was, cursor), contacts)
    requires forall id :: id in was && !Past(cursor, was[id]) ==> now[id] == Filled(was[id])
    requires forall id :: id in Rest(was, cursor) ==> Trim(now[id].peer) == ""
    ensures Rebuilt(now, contacts)
  {
    hide Trim, Filled, Fits;
    var part := Part(was, cursor);
    forall k: Key ensures if Trim(k.peer) == "" then k !in contacts else Fits(now, contacts, k) {
      if Trim(k.peer) != "" {
        forall id ensures id in Thread(now, k) <==> id in Thread(part, k) {
          if id in now && Past(cursor, was[id]) { assert id in Rest(was, cursor); }
        }
        SameThread(part, now, contacts, contacts, k);
      }
    }
  }

  lemma UnreachedIsMissing(was: Messages, now: Messages, contacts: Contacts, cursor: Option<Cursor>, id: nat)
    requires WellFormed(now) && WellFormed(was) && now.Keys == was.Keys && Rebuilt(Part(was, cursor), contacts)
    requires forall x :: x in was ==> now[x].id == was[x].id && now[x].timestamp == was[x].timestamp
    requires id in Rest(was, cursor) && Trim(now[id].peer) != ""
    ensures !Rebuilt(now, contacts)
  {
    hide Trim, Filled, Fits, Rebuilt, Thread;
    var k := KeyOf(now[id]);
    if Rebuilt(now, contacts) {
      RebuiltAt(now, contacts, k);
      RebuiltAt(Part(was, cursor), contacts, k);
      UnreachedDoesNotFit(was, now, contacts, cursor, id);
    }
  }

  /** The contact's last message is not past the cursor, the thread's latest is. */
  lemma UnreachedDoesNotFit(was: Messages, now: Messages, contacts: Contacts, cursor: Option<Cursor>, id: nat)
    requires WellFormed(now) && WellFormed(was) && now.Keys == was.Keys && id in Rest(was, cursor)
    requires forall x :: x in was ==> now[x].id == was[x].id && now[x].timestamp == was[x].timestamp
    requires Fits(Part(was, cursor), contacts, KeyOf(now[id]))
    ensures !Fits(now, contacts, KeyOf(now[id]))
  {
    hide Filled, UnreadIn;
    var k := KeyOf(now[id]);
    assert id in Thread(now, k);
    if k in contacts {
      PartWellFormed(was, cursor);
      LastIsLatest(Part(was, cursor), contacts, k);
      if Fits(now, contacts, k) { LastIsLatest(now, contacts, k); }
      hide Fits;
    }
  }

  lemma PartWellFormed(was: Messages, cursor: Option<Cursor>)
    requires WellFormed(was)
    ensures WellFormed(Part(was, cursor))
  {
    hide Filled;
    forall id | id in was { FilledKeeps(was[id]); }
  }

  lemma LastIsLatest(m: Messages, contacts: Contacts, k: Key)
    requires WellFormed(m) && Fits(m, contacts, k) && k in contacts
    ensures IsLatest(m, k, contacts[k].lastId)
  {
    var x: nat :| IsLatest(m, k, x) && contacts[k] == Summary(m[x], |UnreadIn(m, k)|);
    ThreadIn(m, k);
  }

  /** A later, completed backfill repairs it or finds it right. */
  ghost predicate Recovers(now: Messages, contacts: Contacts) { NeedsBackfill(now, contacts) || Rebuilt(now, contacts) }

  /** After an interruption the next complete backfill leaves the index right exactly when the guard
      lets it run, because no contact was stored yet or a peer is still missing, or nothing was left to
      do; otherwise the partial index stays. */
  lemma InterruptedRecoversExactly(was: Messages, now: Messages, contacts: Contacts, cursor: Option<Cursor>, visited: seq<nat>)
    requires Halfway(was, now, contacts, cursor, visited)
    ensures Recovers(now, contacts) <==>
      || contacts == map[] || (exists id :: id in now && now[id].peer == "")
      || forall id :: id in Rest(was, cursor) ==> Trim(now[id].peer) == ""
  {
    InterruptedIsRight(was, now, contacts, cursor, visited);
    assert now == map[] ==> Rest(was, cursor) == {};
    hide Halfway, Rebuilt, Trim;
  }

  /** The next message, the first past the cursor, is visited. */
  lemma HalfwayStep(was: Messages, now: Messages, contacts: Contacts, cursor: Option<Cursor>, visited: seq<nat>, id: nat)
    requires Halfway(was, now, contacts, cursor, visited) && IsFirst(was, Rest(was, cursor), id)
    ensures now[id] == was[id]
    ensures Halfway(was, now[id := Filled(was[id])], Visit(contacts, Filled(was[id])), Stamp(was[id]), visited + [id])
    ensures Rest(was, Stamp(was[id])) < Rest(was, cursor)
  {
    hide Rebuilt, Filled, Visit, Part;
    var next := Stamp(was[id]);
    PastMoves(was, cursor, id);
    FilledKeeps(was[id]);
    PartGrows(was, cursor, id);
    VisitRebuilds(Part(was, cursor), contacts, Filled(was[id]));
  }

  lemma PastMoves(was: Messages, cursor: Option<Cursor>, id: nat)
    requires WellFormed(was) && IsFirst(was, Rest(was, cursor), id)
    ensures forall x :: x in was ==> (Past(Stamp(was[id]), was[x]) <==> Past(cursor, was[x]) && x != id)
    ensures Rest(was, Stamp(was[id])) == Rest(was, cursor) - {id} && Past(cursor, was[id])
  {
    forall x | x in was ensures Past(Stamp(was[id]), was[x]) <==> Past(cursor, was[x]) && x != id {
      if Past(cursor, was[x]) && x != id { assert x in Rest(was, cursor); }
    }
  }

  lemma PartGrows(was: Messages, cursor: Option<Cursor>, id: nat)
    requires WellFormed(was) && IsFirst(was, Rest(was, cursor), id)
    ensures Part(was, Stamp(was[id])) == Part(was, cursor)[id := Filled(was[id])]
    ensures WellFormed(Part(was, cursor)) && id !in Part(was, cursor)
    ensures forall x :: x in Part(was, cursor) ==> Before(Part(was, cursor)[x], Filled(was[id]))
  {
    hide Filled;
    PastMoves(was, cursor, id);
    hide IsFirst;
    FilledKeeps(was[id]);
    var part := Part(was, cursor);
    forall x | x in part ensures part[x].id == x && x > 0 && Before(part[x], Filled(was[id])) {
      FilledKeeps(was[x]);
    }
  }

  /** The rows read so far have kept their stamps, so a page of the table is a page of the old one. */
  lemma PageOfOld(was: Messages, now: Messages, cursor: Option<Cursor>, limit: nat, page: seq<nat>)
    requires now.Keys == was.Keys && IsPage(now, cursor, limit, page)
    requires forall id :: id in was ==> now[id].id == was[id].id && now[id].timestamp == was[id].timestamp
    ensures IsPage(was, cursor, limit, page) && Rest(was, cursor) == Rest(now, cursor)
  {
    assert Rest(was, cursor) == Rest(now, cursor);
  }

  lemma HalfwayStamps(was: Messages, now: Messages, contacts: Contacts, cursor: Option<Cursor>, visited: seq<nat>)
    requires Halfway(was, now, contacts, cursor, visited)
    ensures WellFormed(now) && now.Keys == was.Keys
    ensures forall id :: id in was ==> now[id].id == was[id].id && now[id].timestamp == was[id].timestamp
  {
    hide Rebuilt, Filled;
    forall id | id in was { FilledKeeps(was[id]); }
  }

  /** Where the loop over a page stands after i messages. */
  function At(was: Messages, cursor: Option<Cursor>, page: seq<nat>, i: nat): Option<Cursor>
    requires i <= |page| && forall j :: 0 <= j < |page| ==> page[j] in was
  {
    if i == 0 then cursor else Stamp(was[page[i - 1]])
  }

  lemma PageInOrder(was: Messages, cursor: Option<Cursor>, limit: nat, page: seq<nat>, i: nat)
    requires WellFormed(was) && IsPage(was, cursor, limit, page) && i < |page|
    ensures IsFirst(was, Rest(was, At(was, cursor, page, i)), page[i])
  {
    var here := Rest(was, At(was, cursor, page, i));
    assert forall j :: 0 <= j < i - 1 ==> Before(was[page[j]], was[page[i - 1]]);
    forall x | x in here && x != page[i] ensures Before(was[page[i]], was[x]) {
      assert page[i] in Rest(was, cursor);
      if i > 0 {
        assert page[i - 1] in Rest(was, cursor) && Before(was[page[i - 1]], was[x]);
      }
      assert x in Rest(was, cursor);
      if x in page {
        var j :| 0 <= j < |page| && page[j] == x;
        assert i <= j;
      }
    }
    if i > 0 { assert Before(was[page[i - 1]], was[page[i]]); }
  }

  lemma StartOfPage(was: Messages, cursor: Option<Cursor>, page: seq<nat>)
    requires forall j :: 0 <= j < |page| ==> page[j] in was
    ensures At(was, cursor, page, 0) == cursor
  {
  }

  lemma LastOfPage(was: Messages, cursor: Option<Cursor>, page: seq<nat>)
    requires page != [] && forall j :: 0 <= j < |page| ==> page[j] in was
    ensures At(was, cursor, page, |page|) == Stamp(was[page[|page| - 1]])
  {
  }

  lemma PageStep(was: Messages, now: Messages, contacts: Contacts, cursor: Option<Cursor>, visited: seq<nat>, page: seq<nat>, limit: nat, i: nat)
    requires IsPage(was, cursor, limit, page) && i < |page| && forall j :: 0 <= j < |page| ==> page[j] in was
    requires Halfway(was, now, contacts, At(was, cursor, page, i), visited)
    requires i > 0 ==> Rest(was, At(was, cursor, page, i)) < Rest(was, cursor)
    ensures var id := page[i]; var next := At(was, cursor, page, i + 1);
      && id in now && now[id].id == id
      && Halfway(was, now[id := Filled(now[id])], Visit(contacts, Filled(now[id])), next, visited + [id])
      && Rest(was, next) < Rest(was, cursor)
  {
    assert WellFormed(was);
    hide Halfway, IsPage, Rest, Filled, Visit, IsFirst;
    HalfwayStamps(was, now, contacts, At(was, cursor, page, i), visited);
    PageInOrder(was, cursor, limit, page, i);
    HalfwayStep(was, now, contacts, At(was, cursor, page, i), visited, page[i]);
  }

  class Store {
    var sms: Messages
    var contacts: Contacts
    var nextId: nat

    function Abs(): Db
      reads this
    {
      Db(sms, contacts, nextId)
    }

    constructor ()
      ensures Abs() == EMPTY
    {
      sms, contacts, nextId := map[], map[], 1;
    }

    method SaveSms(imsi0: string, sender0: string, recipient0: string, content: string, kind: int, status: int, timestamp: int, iccid: string)
      requires Inv(Abs())
      modifies this
      ensures Inv(Abs()) && Abs() == Apply(old(Abs()), Save(imsi0, sender0, recipient0, content, kind, status, timestamp, iccid))
    {
      hide Inv, Trim, Upsert, PeerOf;
      ghost var op := Save(imsi0, sender0, recipient0, content, kind, status, timestamp, iccid);
      ApplyKeeps(Abs(), op);
      var imsi, sender, recipient := Trim(imsi0), Trim(sender0), Trim(recipient0);
      var peer := PeerOf(kind, sender, recipient);
      var row := Sms(nextId, imsi, iccid, peer, sender, recipient, content, kind, status, timestamp - timestamp % SECOND);
      sms := sms[nextId := row];
      nextId := nextId + 1;
      if peer != "" {
        contacts := Upsert(contacts, row);
      }
    }

    method RebuildContact(imsi0: string, peer0: string) returns (threadEmpty: bool)
      requires WellFormed(sms)
      modifies this`contacts
      ensures contacts == Rebuild(sms, old(contacts), Key(imsi0, peer0))
      ensures Plain(Key(imsi0, peer0)) ==> threadEmpty == (Thread(sms, Key(imsi0, peer0)) == {})
    {
      hide Trim;
      var k := Key(Trim(imsi0), Trim(peer0));
      if k.imsi == "" || k.peer == "" { return true; }
      if Thread(sms, k) == {} {
        contacts := contacts - {k};
        return true;
      }
      contacts := contacts[k := Summary(sms[Latest(sms, k)], |UnreadIn(sms, k)|)];
      return false;
    }

    method DeleteById(id: nat) returns (found: bool)
      requires Inv(Abs())
      modifies this
      ensures Inv(Abs()) && Abs() == Apply(old(Abs()), DeleteOne(id)) && found == (id in old(sms))
    {
      hide Inv, Trim, Rebuild, WellFormed;
      ApplyKeeps(Abs(), DeleteOne(id));
      InvRows(Abs());
      WellFormedWithout(sms, id);
      if id !in sms { return false; }
      var row := sms[id];
      sms := sms - {id};
      RebuildTrims(sms, contacts, KeyOf(row));
      var _ := RebuildContact(Trim(row.imsi), Trim(row.peer));
      return true;
    }

    method DeleteByImsiAndPeer(imsi0: string, peer0: string) returns (deleted: nat)
      requires Inv(Abs())
      modifies this
      ensures Inv(Abs()) && Abs() == Apply(old(Abs()), DeleteThread(imsi0, peer0))
      ensures deleted == if Trim(imsi0) == "" || Trim(peer0) == "" then 0 else |Thread(old(sms), Key(Trim(imsi0), Trim(peer0)))|
    {
      hide Inv, Trim, Thread;
      ApplyKeeps(Abs(), DeleteThread(imsi0, peer0));
      var k := Key(Trim(imsi0), Trim(peer0));
      if k.imsi == "" || k.peer == "" { return 0; }
      var ids := Thread(sms, k);
      deleted := |ids|;
      if deleted == 0 { return; }
      sms := sms - ids;
      contacts := contacts - {k};
    }

    /** The backfill ends, visits every message exactly once, in pages of whatever size, fills in the
        missing peers, and leaves every contact as a rebuild from all messages would. fails tells which
        pages cannot be read or stored: the first of them ends it between two pages. */
    method Backfill(batchSize: int, fails: nat -> bool) returns (ok: bool, ghost cursor: Option<Cursor>, ghost visited: seq<nat>)
      requires WellFormed(sms)
      modifies this`sms, this`contacts
      ensures !NeedsBackfill(old(sms), old(contacts)) ==> ok && sms == old(sms) && contacts == old(contacts)
      ensures NeedsBackfill(old(sms), old(contacts)) && ok ==>
        && sms == AllFilled(old(sms)) && Rebuilt(sms, contacts)
        && (forall id :: id in visited <==> id in sms) && (forall i, j :: 0 <= i < j < |visited| ==> visited[i] != visited[j])
      ensures !ok ==> Halfway(old(sms), sms, contacts, cursor, visited)
      ensures (forall n: nat :: !fails(n)) ==> ok
    {
      hide Halfway, IsPage, AllFilled, Rebuilt;
      var limit: nat := if batchSize <= 0 then 500 else batchSize;
      cursor, visited := None, [];
      if !NeedsBackfill(sms, contacts) { return true, cursor, visited; }
      ghost var was := sms;
      contacts := map[];
      HalfwayStarts(was);
      var last: Option<Cursor>, pages: nat := None, 0;
      while true
        invariant Halfway(was, sms, contacts, last, visited) && cursor == last
        decreases Rest(was, last)
      {
        if fails(pages) { return false, cursor, visited; }
        HalfwayStamps(was, sms, contacts, last, visited);
        var page := Query(sms, last, limit);
        PageOfOld(was, sms, last, limit, page);
        if page == [] {
          HalfwayEnds(was, sms, contacts, last, visited);
          return true, cursor, visited;
        }
        last, visited := VisitPage(page, last, limit, was, visited);
        cursor, pages := last, pages + 1;
      }
    }

    /** One page, in one transaction. */
    method VisitPage(page: seq<nat>, ghost cursor0: Option<Cursor>, ghost limit: nat, ghost was: Messages, ghost visited0: seq<nat>)
      returns (cursor: Option<Cursor>, ghost visited: seq<nat>)
      requires Halfway(was, sms, contacts, cursor0, visited0) && IsPage(was, cursor0, limit, page) && page != []
      modifies this`sms, this`contacts
      ensures Halfway(was, sms, contacts, cursor, visited)
      ensures Rest(was, cursor) < Rest(was, cursor0)
    {
      hide Trim, Upsert, Halfway, IsPage, Rest, WellFormed, Filled, Visit, At;
      PageRows(was, cursor0, limit, page);
      visited := visited0;
      ghost var here := cursor0;
      StartOfPage(was, cursor0, page);
      for i := 0 to |page|
        invariant here == At(was, cursor0, page, i) && Halfway(was, sms, contacts, here, visited)
        invariant i > 0 ==> Rest(was, here) < Rest(was, cursor0)
      {
        PageStep(was, sms, contacts, cursor0, visited, page, limit, i);
        VisitRow(page[i]);
        here, visited := At(was, cursor0, page, i + 1), visited + [page[i]];
      }
      HalfwayStamps(was, sms, contacts, here, visited);
      LastOfPage(was, cursor0, page);
      var last := sms[page[|page| - 1]];
      return Some(Cursor(last.timestamp, last.id)), visited;
    }

    method VisitRow(id: nat)
      requires id in sms && sms[id].id == id
      modifies this`sms, this`contacts
      ensures sms == old(sms)[id := Filled(old(sms)[id])] && contacts == Visit(old(contacts), Filled(old(sms)[id]))
    {
      hide Trim, Upsert, PeerOf;
      PeerIsTrimmed(sms[id].kind, sms[id].sender, sms[id].recipient);
      TrimOfEmpty();
      var row := sms[id];
      if Trim(row.peer) == "" {
        row := row.(peer := PeerOf(row.kind, row.sender, row.recipient));
        if row.peer != "" {
          sms := sms[row.id := row];
        }
      }
      if row.peer != "" {
        contacts := Upsert(contacts, row);
      }
    }
  }

  lemma PageRows(was: Messages, cursor: Option<Cursor>, limit: nat, page: seq<nat>)
    requires IsPage(was, cursor, limit, page)
    ensures forall i :: 0 <= i < |page| ==> page[i] in was
  {
    forall i | 0 <= i < |page| ensures page[i] in was { assert page[i] in Rest(was, cursor); }
  }

  lemma WellFormedWithout(m: Messages, id: nat)
    requires WellFormed(m)
    ensures WellFormed(m - {id})
  {
  }

  lemma RebuildTrims(m: Messages, contacts: Contacts, k: Key)
    requires WellFormed(m)
    ensures Rebuild(m, contacts, Key(Trim(k.imsi), Trim(k.peer))) == Rebuild(m, contacts, k)
  {
    hide Trim;
    TrimIdempotent(k.imsi);
    TrimIdempotent(k.peer);
  }
}
