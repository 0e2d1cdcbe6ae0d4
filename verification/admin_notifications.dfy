/**
 * The in-memory store of admin notifications: entries keyed by the millisecond clock reading at
 * their creation, kept in insertion order and capped at the hundred most recent, each with a read
 * flag. Delivery over sockets is not part of the model.
 */
module AdminNotifications {
  import opened Wrappers

  datatype NoteType = WithdrawalNote | DepositNote | SupportNote | SystemNote | UserNote

  datatype Priority = Low | Medium | High

  /** One notification; `id` is the clock reading in milliseconds, `timestamp` the creation time. */
  datatype Notification = Notification(
    id: nat,
    kind: NoteType,
    priority: Priority,
    message: string,
    timestamp: int,
    read: bool)

  /** At most this many notifications are kept. */
  const Capacity: nat := 100

  /** The store is a map, so no two entries share an id. */
  predicate DistinctIds(ns: seq<Notification>) {
    forall i, j :: 0 <= i < j < |ns| ==> ns[i].id != ns[j].id
  }

  /** What every creation keeps true: distinct ids and at most `Capacity` entries. */
  predicate Valid(ns: seq<Notification>) {
    DistinctIds(ns) && |ns| <= Capacity
  }

  /** The position of the entry with `id`, if there is one. */
  function IndexOfId(ns: seq<Notification>, id: nat): (r: Option<nat>)
    ensures r.None? <==> forall i :: 0 <= i < |ns| ==> ns[i].id != id
    ensures r.Some? ==> r.value < |ns| && ns[r.value].id == id
  {
    if ns == [] then None
    else if ns[0].id == id then Some(0)
    else
      match IndexOfId(ns[1..], id)
      case None =>
        assert forall i :: 1 <= i < |ns| ==> ns[i] == ns[1..][i - 1];
        None
      case Some(k) => Some(k + 1)
  }

  /** The entry with `id`, if there is one (`notifications.get`). */
  function Get(ns: seq<Notification>, id: nat): (r: Option<Notification>)
    requires DistinctIds(ns)
    ensures r.Some? <==> exists i :: 0 <= i < |ns| && ns[i].id == id
    ensures r.Some? ==> r.value in ns && r.value.id == id
    ensures forall m :: m in ns && m.id == id ==> r == Some(m)
  {
    match IndexOfId(ns, id)
    case None => None
    case Some(k) => Some(ns[k])
  }

  /** A creation adds a new key to a full store, so the oldest entry must go. */
  predicate Overflows(ns: seq<Notification>, id: nat) {
    IndexOfId(ns, id).None? && |ns| >= Capacity
  }

  /**
   * `createNotification`: the new entry is unread and carries the given fields. An entry with the
   * same id is replaced where it stands; otherwise the entry goes at the end and, if that makes
   * more than `Capacity`, the first entry is removed.
   */
  function Create(ns: seq<Notification>, id: nat, at: int, kind: NoteType, priority: Priority, message: string)
    : (r: seq<Notification>)
    requires DistinctIds(ns)
    ensures DistinctIds(r)
    ensures Get(r, id) == Some(Notification(id, kind, priority, message, at, false))
    ensures Valid(ns) ==> Valid(r)
    ensures forall m :: m in r && m.id != id ==> m in ns
    ensures forall i :: 0 <= i < |ns| && ns[i].id != id && !(i == 0 && Overflows(ns, id)) ==> ns[i] in r
    ensures Overflows(ns, id) ==> ns[0] !in r
    ensures IndexOfId(ns, id).Some? ==> |r| == |ns|
  {
    var n := Notification(id, kind, priority, message, at, false);
    match IndexOfId(ns, id)
    case Some(k) =>
      var r := ns[k := n];
      assert forall i :: 0 <= i < |ns| && i != k ==> r[i] == ns[i];
      assert DistinctIds(r);
      assert r[k] == n;
      r
    case None =>
      var grown := ns + [n];
      assert forall i :: 0 <= i < |ns| ==> grown[i] == ns[i];
      if |grown| > Capacity then
        var r := grown[1..];
        assert forall i :: 1 <= i < |grown| ==> r[i - 1] == grown[i];
        assert ns[0] !in r by {
          forall i | 0 <= i < |r| ensures r[i] != ns[0] {
            assert r[i] == grown[i + 1];
          }
        }
        assert DistinctIds(r);
        assert r[|r| - 1] == n;
        r
      else grown
  }

  /** The events the service listens for, with the one field each message uses. */
  datatype Event =
    | NewWithdrawal(amount: string)
    | NewDeposit(amount: string)
    | SupportTicket(subject: string)
    | UserAlert(text: string)
    | SystemAlert(text: string)

  /** The kind, priority and message the listener of an event creates. */
  datatype Draft = Draft(kind: NoteType, priority: Priority, message: string)

  /** The event listeners: each event fixes a kind and a priority. */
  function Classify(e: Event): (d: Draft) {
    match e
    case NewWithdrawal(amount) => Draft(WithdrawalNote, High, "New withdrawal request: " + amount + " MMK")
    case NewDeposit(amount) => Draft(DepositNote, Medium, "New deposit: " + amount + " MMK")
    case SupportTicket(subject) => Draft(SupportNote, High, "New support ticket: " + subject)
    case UserAlert(text) => Draft(UserNote, Medium, text)
    case SystemAlert(text) => Draft(SystemNote, High, text)
  }

  /**
   * Withdrawals, support tickets and system alerts are urgent; deposits and user alerts are not;
   * nothing is ever created at low priority; and each event has a kind of its own.
   */
  lemma ClassifyTable(e: Event, e': Event)
    ensures Classify(e).priority == High <==> e.NewWithdrawal? || e.SupportTicket? || e.SystemAlert?
    ensures Classify(e).priority != Low
    ensures Classify(e).kind == Classify(e').kind <==> ToString(e) == ToString(e')
    ensures e.UserAlert? || e.SystemAlert? ==> Classify(e).message == e.text
  {
  }

  /** The name an event is emitted under. */
  function ToString(e: Event): string {
    match e
    case NewWithdrawal(_) => "newWithdrawal"
    case NewDeposit(_) => "newDeposit"
    case SupportTicket(_) => "supportTicket"
    case UserAlert(_) => "userAlert"
    case SystemAlert(_) => "systemAlert"
  }

  /** An emitted event, handled by its listener at clock reading `id` and time `at`. */
  function Notify(ns: seq<Notification>, e: Event, id: nat, at: int): (r: seq<Notification>)
    requires DistinctIds(ns)
    ensures Valid(ns) ==> Valid(r)
    ensures DistinctIds(r)
    ensures Get(r, id) == Some(Notification(id, Classify(e).kind, Classify(e).priority, Classify(e).message, at, false))
  {
    var d := Classify(e);
    Create(ns, id, at, d.kind, d.priority, d.message)
  }

  /** `markAsRead`: the entry with `id` becomes read and nothing else changes; an unknown id changes nothing. */
  function MarkAsRead(ns: seq<Notification>, id: nat): (r: seq<Notification>)
    requires DistinctIds(ns)
    ensures |r| == |ns| && DistinctIds(r)
    ensures forall i :: 0 <= i < |ns| ==> r[i] == if ns[i].id == id then ns[i].(read := true) else ns[i]
  {
    match IndexOfId(ns, id)
    case None => ns
    case Some(k) => ns[k := ns[k].(read := true)]
  }

  /** Marking twice is marking once, and a read entry stays read. */
  lemma MarkAsReadIdempotent(ns: seq<Notification>, id: nat)
    requires DistinctIds(ns)
    ensures MarkAsRead(MarkAsRead(ns, id), id) == MarkAsRead(ns, id)
    ensures IndexOfId(ns, id).None? ==> MarkAsRead(ns, id) == ns
  {
  }

  /** The unread entries, in store order. */
  function Unread(ns: seq<Notification>): (r: seq<Notification>)
    ensures |r| <= |ns|
  {
    if ns == [] then []
    else (if ns[0].read then [] else [ns[0]]) + Unread(ns[1..])
  }

  /** The unread list holds exactly the unread entries of the store. */
  lemma {:induction false} UnreadMembers(ns: seq<Notification>)
    ensures forall m :: m in Unread(ns) <==> m in ns && !m.read
  {
    if ns != [] {
      UnreadMembers(ns[1..]);
      assert ns == [ns[0]] + ns[1..];
    }
  }

  /** The unread list is as long as there are positions holding an unread entry. */
  lemma {:induction false} UnreadPositions(ns: seq<Notification>)
    ensures |Unread(ns)| == |set i | 0 <= i < |ns| && !ns[i].read|
    decreases |ns|
  {
    var all := set i | 0 <= i < |ns| && !ns[i].read;
    if ns == [] {
      assert all == {};
    } else {
      var n := |ns| - 1;
      var init := ns[..n];
      var before := set i | 0 <= i < |init| && !init[i].read;
      UnreadPositions(init);
      assert ns == init + [ns[n]];
      UnreadAppend(init, [ns[n]]);
      assert Unread([ns[n]]) == (if ns[n].read then [] else [ns[n]]) + Unread([]);
      if ns[n].read {
        assert all == before;
      } else {
        assert all == before + {n};
        assert n !in before;
      }
    }
  }

  /** `getUnreadCount`: the number of unread entries. */
  function UnreadCount(ns: seq<Notification>): (c: nat)
    ensures c == |set i | 0 <= i < |ns| && !ns[i].read|
    ensures c <= |ns|
    ensures c == 0 <==> forall i :: 0 <= i < |ns| ==> ns[i].read
  {
    var u := Unread(ns);
    UnreadMembers(ns);
    UnreadPositions(ns);
    assert forall i :: 0 <= i < |ns| ==> ns[i] in ns;
    assert |u| > 0 ==> u[0] in u;
    |u|
  }

  /** One for an unread entry, zero for a read one. */
  function Weight(m: Notification): nat {
    if m.read then 0 else 1
  }

  /** The unread entries of a concatenation are those of each part. */
  lemma {:induction false} UnreadAppend(a: seq<Notification>, b: seq<Notification>)
    ensures Unread(a + b) == Unread(a) + Unread(b)
  {
    if a == [] {
      assert a + b == b;
    } else {
      var ab := a + b;
      assert ab != [] && ab[0] == a[0] && ab[1..] == a[1..] + b;
      var h: seq<Notification> := if a[0].read then [] else [a[0]];
      assert Unread(ab) == h + Unread(ab[1..]);
      UnreadAppend(a[1..], b);
      assert Unread(a) == h + Unread(a[1..]);
    }
  }

  /** Overwriting one entry changes the count by the difference of the two entries' weights. */
  lemma {:induction false} UnreadCountUpdate(ns: seq<Notification>, k: nat, m: Notification)
    requires k < |ns|
    ensures UnreadCount(ns[k := m]) == UnreadCount(ns) - Weight(ns[k]) + Weight(m)
  {
    if k > 0 {
      assert ns[k := m][1..] == ns[1..][k - 1 := m];
      UnreadCountUpdate(ns[1..], k - 1, m);
    } else {
      assert ns[k := m][1..] == ns[1..];
    }
  }

  /** Marking an unread entry lowers the count by one; anything else leaves it. */
  lemma MarkAsReadCount(ns: seq<Notification>, id: nat)
    requires DistinctIds(ns)
    ensures UnreadCount(MarkAsRead(ns, id)) ==
      UnreadCount(ns) - (if exists i :: 0 <= i < |ns| && ns[i].id == id && !ns[i].read then 1 else 0)
  {
    match IndexOfId(ns, id)
    case None =>
    case Some(k) =>
      UnreadCountUpdate(ns, k, ns[k].(read := true));
  }

  /**
   * A creation adds one unread entry; it takes away the entry it replaces or, on overflow, the
   * oldest one, whose weight leaves the count with it.
   */
  lemma CreateCount(ns: seq<Notification>, id: nat, at: int, kind: NoteType, priority: Priority, message: string)
    requires DistinctIds(ns)
    ensures var c := UnreadCount(Create(ns, id, at, kind, priority, message));
      && (IndexOfId(ns, id).Some? ==> c == UnreadCount(ns) - Weight(ns[IndexOfId(ns, id).value]) + 1)
      && (Overflows(ns, id) ==> c == UnreadCount(ns) - Weight(ns[0]) + 1)
      && (IndexOfId(ns, id).None? && !Overflows(ns, id) ==> c == UnreadCount(ns) + 1)
  {
    var n := Notification(id, kind, priority, message, at, false);
    match IndexOfId(ns, id)
    case Some(k) =>
      UnreadCountUpdate(ns, k, n);
    case None =>
      UnreadAppend(ns, [n]);
      if Overflows(ns, id) {
        assert ns + [n] == [ns[0]] + (ns[1..] + [n]);
        UnreadAppend([ns[0]], ns[1..] + [n]);
        UnreadAppend(ns[1..], [n]);
        UnreadAppend([ns[0]], ns[1..]);
        assert [ns[0]] + ns[1..] == ns;
      }
  }

  /** Ids rise strictly along the store: insertion order is creation order. */
  predicate Chronological(ns: seq<Notification>) {
    forall i, j :: 0 <= i < j < |ns| ==> ns[i].id < ns[j].id
  }

  /** Overwriting an entry with one of the same id keeps creation order. */
  lemma ChronologicalUpdate(ns: seq<Notification>, k: nat, n: Notification)
    requires Chronological(ns) && k < |ns| && n.id == ns[k].id
    ensures Chronological(ns[k := n])
  {
    assert forall i :: 0 <= i < |ns| ==> ns[k := n][i].id == ns[i].id;
  }

  /** Appending an entry newer than all others keeps creation order. */
  lemma ChronologicalAppend(ns: seq<Notification>, n: Notification)
    requires Chronological(ns) && forall i :: 0 <= i < |ns| ==> ns[i].id < n.id
    ensures Chronological(ns + [n])
  {
    assert forall i :: 0 <= i < |ns| ==> (ns + [n])[i] == ns[i];
  }

  /** Dropping the first entry keeps creation order. */
  lemma ChronologicalTail(ns: seq<Notification>)
    requires Chronological(ns) && ns != []
    ensures Chronological(ns[1..])
  {
    assert forall i :: 0 <= i < |ns| - 1 ==> ns[1..][i] == ns[i + 1];
  }

  /** While the clock does not run backwards, a creation keeps the store in creation order. */
  lemma CreateKeepsChronology(ns: seq<Notification>, id: nat, at: int, kind: NoteType, priority: Priority, message: string)
    requires Chronological(ns)
    requires forall i :: 0 <= i < |ns| ==> ns[i].id <= id
    ensures Chronological(Create(ns, id, at, kind, priority, message))
  {
    var n := Notification(id, kind, priority, message, at, false);
    match IndexOfId(ns, id)
    case Some(k) =>
      ChronologicalUpdate(ns, k, n);
    case None =>
      ChronologicalAppend(ns, n);
      if |ns| + 1 > Capacity {
        ChronologicalTail(ns + [n]);
      }
  }

  /** In creation order, every entry after the first is newer than it. */
  lemma FirstIsOldest(s: seq<Notification>)
    requires Chronological(s) && s != []
    ensures forall m :: m in s[1..] ==> s[0].id < m.id
  {
    forall m | m in s[1..] ensures s[0].id < m.id {
      var i :| 0 <= i < |s[1..]| && s[1..][i] == m;
      assert m == s[i + 1];
    }
  }

  /** In a store kept in creation order, the entry an overflow removes is the oldest one. */
  lemma OverflowEvictsOldest(ns: seq<Notification>, id: nat, at: int, kind: NoteType, priority: Priority, message: string)
    requires Chronological(ns)
    requires forall i :: 0 <= i < |ns| ==> ns[i].id <= id
    requires Overflows(ns, id)
    ensures forall m :: m in Create(ns, id, at, kind, priority, message) ==> ns[0].id < m.id
  {
    var n := Notification(id, kind, priority, message, at, false);
    var grown := ns + [n];
    assert ns[0].id < id by {
      assert ns[0].id <= id && ns[0].id != id;
    }
    ChronologicalAppend(ns, n);
    FirstIsOldest(grown);
    assert grown[0] == ns[0];
    assert Create(ns, id, at, kind, priority, message) == grown[1..];
  }

  /** The entries run from newest to oldest by timestamp. */
  predicate NewestFirst(s: seq<Notification>) {
    forall i, j :: 0 <= i < j < |s| ==> s[i].timestamp >= s[j].timestamp
  }

  /** `x` placed before the first entry that is not newer than it. */
  function Insert(x: Notification, t: seq<Notification>): (r: seq<Notification>)
    ensures multiset(r) == multiset(t) + multiset{x}
    ensures forall m :: m in r <==> m in t || m == x
  {
    if t == [] || t[0].timestamp <= x.timestamp then [x] + t
    else
      var rest := Insert(x, t[1..]);
      assert t == [t[0]] + t[1..];
      [t[0]] + rest
  }

  /** Inserting into a list ordered newest first keeps it so. */
  lemma {:induction false} InsertKeepsOrder(x: Notification, t: seq<Notification>)
    requires NewestFirst(t)
    ensures NewestFirst(Insert(x, t))
  {
    var r := Insert(x, t);
    if t == [] || t[0].timestamp <= x.timestamp {
      assert r == [x] + t;
      forall i, j | 0 <= i < j < |r| ensures r[i].timestamp >= r[j].timestamp {
        if i == 0 {
          assert r[j] == t[j - 1];
          assert t[0].timestamp >= t[j - 1].timestamp;
        } else {
          assert r[i] == t[i - 1] && r[j] == t[j - 1];
        }
      }
    } else {
      var rest := Insert(x, t[1..]);
      assert NewestFirst(t[1..]) by {
        assert forall i :: 0 <= i < |t[1..]| ==> t[1..][i] == t[i + 1];
      }
      InsertKeepsOrder(x, t[1..]);
      assert r == [t[0]] + rest;
      forall i, j | 0 <= i < j < |r| ensures r[i].timestamp >= r[j].timestamp {
        if i == 0 {
          var m := rest[j - 1];
          assert m == r[j];
          assert m in rest;
          if m != x {
            var k :| 0 <= k < |t[1..]| && t[1..][k] == m;
            assert t[k + 1] == m;
          }
        } else {
          assert r[i] == rest[i - 1] && r[j] == rest[j - 1];
        }
      }
    }
  }

  /** The comparator sort of the unread list, newest first (an insertion sort, stable). */
  function SortNewestFirst(s: seq<Notification>): (r: seq<Notification>)
    ensures multiset(r) == multiset(s)
    ensures NewestFirst(r)
  {
    if s == [] then []
    else
      assert s == [s[0]] + s[1..];
      InsertKeepsOrder(s[0], SortNewestFirst(s[1..]));
      Insert(s[0], SortNewestFirst(s[1..]))
  }

  /**
   * The list an admin's socket is sent on connection: exactly the unread entries, each once,
   * newest first, as many as the unread count says.
   */
  function UnreadNewestFirst(ns: seq<Notification>): (r: seq<Notification>)
    ensures multiset(r) == multiset(Unread(ns))
    ensures forall m :: m in r <==> m in ns && !m.read
    ensures |r| == UnreadCount(ns)
    ensures NewestFirst(r)
  {
    UnreadMembers(ns);
    var r := SortNewestFirst(Unread(ns));
    assert forall m :: m in r <==> m in multiset(r);
    assert forall m :: m in Unread(ns) <==> m in multiset(Unread(ns));
    assert |r| == |multiset(r)|;
    r
  }
}
