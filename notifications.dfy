/**
  Notifications: a single notification's `mark_as_read` transition, and the
  bulk "mark as read" request (`NotificationMarkReadSerializer`) that first
  validates a list of ids against the requesting user's notifications and
  then sets all of them to read in one update. The clock is a parameter
  (`now`); the notification table is a sequence of rows with unique ids.
*/
module Notifications {
  import opened Wrappers

  datatype Status = Unread | Read | Archived

  /** One row of the `notifications` table, with the fields the operations here touch or keep. */
  datatype NotificationRecord = NotificationRecord(
    id: int, user: int, notificationType: string, title: string, message: string,
    priority: string, status: Status, readAt: Option<int>)

  /** The row after `mark_as_read()` at time `now`: an unread notification becomes read at
      `now`; a read or archived one is left as it is. */
  function MarkedAsRead(n: NotificationRecord, now: int): (r: NotificationRecord)
    ensures n.status == Unread ==> r.status == Read && r.readAt == Some(now)
    ensures n.status != Unread ==> r == n
    ensures r.id == n.id && r.user == n.user && r.notificationType == n.notificationType
      && r.title == n.title && r.message == n.message && r.priority == n.priority
  {
    if n.status == Unread then n.(status := Read, readAt := Some(now)) else n
  }

  /** Marking as read twice is marking as read once: the second call finds the notification
      already read and keeps the first reading time. */
  lemma MarkedAsReadIdempotent(n: NotificationRecord, now: int, later: int)
    ensures MarkedAsRead(MarkedAsRead(n, now), later) == MarkedAsRead(n, now)
  {
  }

  /** After marking, the notification is never unread, and an archived one stays archived. */
  lemma MarkedAsReadNeverUnread(n: NotificationRecord, now: int)
    ensures MarkedAsRead(n, now).status != Unread
    ensures MarkedAsRead(n, now).status == Archived <==> n.status == Archived
  {
  }

  /** A notification object whose fields `mark_as_read` updates in place; `saves` counts the
      writes of the row back to the table. */
  class Notification {
    var id: int
    var user: int
    var notificationType: string
    var title: string
    var message: string
    var priority: string
    var status: Status
    var readAt: Option<int>
    var saves: nat

    function Record(): NotificationRecord
      reads this
    {
      NotificationRecord(id, user, notificationType, title, message, priority, status, readAt)
    }

    /** A newly created notification: unread, never read, not yet saved by `mark_as_read`. */
    constructor (id: int, user: int, notificationType: string, title: string, message: string, priority: string)
      ensures Record() == NotificationRecord(id, user, notificationType, title, message, priority, Unread, None)
      ensures saves == 0
    {
      this.id := id;
      this.user := user;
      this.notificationType := notificationType;
      this.title := title;
      this.message := message;
      this.priority := priority;
      this.status := Unread;
      this.readAt := None;
      this.saves := 0;
    }

    /** `mark_as_read()`: an unread notification becomes read at `now` and is saved once; a
        read or archived one is neither changed nor saved. */
    method MarkAsRead(now: int)
      modifies this
      ensures Record() == MarkedAsRead(old(Record()), now)
      ensures saves == if old(status) == Unread then old(saves) + 1 else old(saves)
    {
      if status == Unread {
        status := Read;
        readAt := Some(now);
        saves := saves + 1;
      }
    }
  }

  /** What line 70 of the model stores in `read_at`: a field declaration, not a time. */
  datatype ReadAtValue = Timestamp(t: int) | DateTimeFieldDeclaration

  /** `read_at` as assigned by `mark_as_read` as written, whatever the time of reading. */
  function ReadAtAsWritten(now: int): ReadAtValue
  {
    DateTimeFieldDeclaration
  }

  datatype SaveError = NotADateTime

  /** `save()` converting the value of `read_at` for the database: a time is stored, a field
      declaration is no date-time and the save raises. */
  function SaveReadAt(v: ReadAtValue): (r: Result<Option<int>, SaveError>)
    ensures r.Ok? <==> v.Timestamp?
  {
    match v
    case Timestamp(t) => Ok(Some(t))
    case DateTimeFieldDeclaration => Err(NotADateTime)
  }

  /** The stored row after `mark_as_read()` as written: for an unread notification the save
      of the new `read_at` raises and the row is left as stored; a read or archived one is not
      touched. */
  function MarkAsReadAsWritten(n: NotificationRecord, now: int): Result<NotificationRecord, SaveError>
  {
    if n.status == Unread then
      match SaveReadAt(ReadAtAsWritten(now))
      case Err(e) => Err(e)
      case Ok(t) => Ok(n.(status := Read, readAt := t))
    else Ok(n)
  }

  /** As written, marking an unread notification as read always raises and the stored row
      stays unread, while the corrected `MarkedAsRead` makes it read at `now`; on any other
      notification the two agree. */
  lemma MarkAsReadAsWrittenFails(n: NotificationRecord, now: int)
    ensures MarkAsReadAsWritten(n, now).Err? <==> n.status == Unread
    ensures MarkAsReadAsWritten(n, now).Ok? ==> MarkAsReadAsWritten(n, now).value == MarkedAsRead(n, now)
    ensures n.status == Unread ==> MarkedAsRead(n, now).status == Read && MarkedAsRead(n, now).readAt == Some(now)
  {
    assert !ReadAtAsWritten(now).Timestamp?;
  }

  // ---------------------------------------------------------------------------
  // Bulk mark-as-read

  /** The primary key is unique. */
  predicate UniqueIds(rows: seq<NotificationRecord>) {
    forall i, j :: 0 <= i < j < |rows| ==> rows[i].id != rows[j].id
  }

  /** `Notification.objects.filter(id__in=ids, user=user)` selects this row. */
  predicate Selected(n: NotificationRecord, ids: seq<int>, user: int) {
    n.id in ids && n.user == user
  }

  /** `.count()` of that query. */
  function MatchCount(rows: seq<NotificationRecord>, ids: seq<int>, user: int): (c: nat)
    ensures c <= |rows|
  {
    if rows == [] then 0
    else (if Selected(rows[0], ids, user) then 1 else 0) + MatchCount(rows[1..], ids, user)
  }

  /** The ids of the notifications `user` owns. */
  function OwnedIds(rows: seq<NotificationRecord>, user: int): set<int>
  {
    if rows == [] then {}
    else (if rows[0].user == user then {rows[0].id} else {}) + OwnedIds(rows[1..], user)
  }

  /** An id is owned exactly when some row of the user carries it. */
  lemma {:induction false} OwnedIdsAt(rows: seq<NotificationRecord>, user: int, x: int)
    ensures x in OwnedIds(rows, user) <==> exists i :: 0 <= i < |rows| && rows[i].id == x && rows[i].user == user
  {
    if rows != [] {
      OwnedIdsAt(rows[1..], user, x);
      if x in OwnedIds(rows[1..], user) {
        var i :| 0 <= i < |rows[1..]| && rows[1..][i].id == x && rows[1..][i].user == user;
        assert rows[i + 1] == rows[1..][i];
      }
      if exists i :: 0 <= i < |rows| && rows[i].id == x && rows[i].user == user {
        var i :| 0 <= i < |rows| && rows[i].id == x && rows[i].user == user;
        if i > 0 {
          assert rows[1..][i - 1] == rows[i];
        }
      }
    }
  }

  function Elements(ids: seq<int>): (s: set<int>)
    ensures forall x :: x in s <==> x in ids
  {
    set x | x in ids
  }

  predicate Distinct(ids: seq<int>) {
    forall i, j :: 0 <= i < j < |ids| ==> ids[i] != ids[j]
  }

  datatype ValidationError = EmptyList | SomeNotFound

  /** `validate_notification_ids` together with the list field's `allow_empty=False`: the
      list is refused when empty, and when the user's notifications among the listed ids
      are not exactly as many as the list is long. */
  function ValidateNotificationIds(rows: seq<NotificationRecord>, ids: seq<int>, user: int): (r: Result<seq<int>, ValidationError>)
    ensures r.Ok? ==> r.value == ids
    ensures r == Err(EmptyList) <==> ids == []
  {
    if ids == [] then Err(EmptyList)
    else if MatchCount(rows, ids, user) != |ids| then Err(SomeNotFound)
    else Ok(ids)
  }

  /** With unique ids the count is the number of listed ids the user owns. */
  lemma {:induction false} MatchCountIsOwnedListed(rows: seq<NotificationRecord>, ids: seq<int>, user: int)
    requires UniqueIds(rows)
    ensures MatchCount(rows, ids, user) == |OwnedIds(rows, user) * Elements(ids)|
  {
    if rows != [] {
      var head, rest := rows[0], rows[1..];
      assert UniqueIds(rest) by {
        forall i, j | 0 <= i < j < |rest| ensures rest[i].id != rest[j].id {
          assert rest[i] == rows[i + 1] && rest[j] == rows[j + 1];
        }
      }
      MatchCountIsOwnedListed(rest, ids, user);
      HeadIdNotInRest(rows, user);
      var restSet := OwnedIds(rest, user) * Elements(ids);
      if Selected(head, ids, user) {
        assert OwnedIds(rows, user) * Elements(ids) == {head.id} + restSet;
        assert head.id !in restSet;
      } else {
        assert OwnedIds(rows, user) * Elements(ids) == restSet;
      }
    }
  }

  /** With unique ids the first row's id is nobody's id further down. */
  lemma HeadIdNotInRest(rows: seq<NotificationRecord>, user: int)
    requires UniqueIds(rows) && rows != []
    ensures rows[0].id !in OwnedIds(rows[1..], user)
  {
    var rest := rows[1..];
    forall i | 0 <= i < |rest| ensures rest[i].id != rows[0].id {
      assert rest[i] == rows[i + 1];
    }
    OwnedIdsAt(rest, user, rows[0].id);
  }

  /** A list has at most as many distinct elements as entries, and exactly as many when
      it has no duplicates. */
  lemma {:induction false} ElementsCount(ids: seq<int>)
    ensures |Elements(ids)| <= |ids|
    ensures |Elements(ids)| == |ids| <==> Distinct(ids)
  {
    if ids != [] {
      var front := ids[..|ids| - 1];
      var last := ids[|ids| - 1];
      ElementsCount(front);
      assert ids == front + [last];
      assert Elements(ids) == Elements(front) + {last};
      if last in front {
        assert Elements(ids) == Elements(front);
        var k :| 0 <= k < |front| && front[k] == last;
        assert ids[k] == ids[|ids| - 1];
      } else {
        assert |Elements(ids)| == |Elements(front)| + 1;
        if Distinct(front) {
          forall i, j | 0 <= i < j < |ids| ensures ids[i] != ids[j] {
            if j < |ids| - 1 {
              assert ids[i] == front[i] && ids[j] == front[j];
            } else {
              assert ids[i] == front[i];
            }
          }
        }
        if Distinct(ids) {
          forall i, j | 0 <= i < j < |front| ensures front[i] != front[j] {
            assert front[i] == ids[i] && front[j] == ids[j];
          }
        }
      }
    }
  }

  /** A request passes validation exactly when the list is non-empty, has no duplicate, and
      every listed id is a notification of the requesting user. */
  lemma ValidateExactly(rows: seq<NotificationRecord>, ids: seq<int>, user: int)
    requires UniqueIds(rows)
    ensures ValidateNotificationIds(rows, ids, user).Ok? <==>
      ids != [] && Distinct(ids) && forall x :: x in ids ==> x in OwnedIds(rows, user)
  {
    MatchCountIsOwnedListed(rows, ids, user);
    ElementsCount(ids);
    var owned := OwnedIds(rows, user) * Elements(ids);
    var listed := Elements(ids);
    assert listed == owned + (listed - owned);
    assert |listed| == |owned| + |listed - owned|;
    if ids != [] && MatchCount(rows, ids, user) == |ids| {
      assert |owned| == |listed| && Distinct(ids);
      assert listed - owned == {};
    }
    if ids != [] && Distinct(ids) && forall x :: x in ids ==> x in OwnedIds(rows, user) {
      assert owned == listed;
    }
  }

  /** The rows after `.update(status='read')` on the query: every selected row is read,
      whatever its status was, archived included; every other row is unchanged. */
  function SetSelectedRead(rows: seq<NotificationRecord>, ids: seq<int>, user: int): (r: seq<NotificationRecord>)
    ensures |r| == |rows|
    ensures forall i :: 0 <= i < |rows| ==>
      r[i] == if Selected(rows[i], ids, user) then rows[i].(status := Read) else rows[i]
  {
    if rows == [] then []
    else
      [if Selected(rows[0], ids, user) then rows[0].(status := Read) else rows[0]]
      + SetSelectedRead(rows[1..], ids, user)
  }

  /** The rows the query selects, in table order. */
  function SelectedRows(rows: seq<NotificationRecord>, ids: seq<int>, user: int): (r: seq<NotificationRecord>)
    ensures forall n :: n in r <==> n in rows && Selected(n, ids, user)
  {
    if rows == [] then []
    else
      (if Selected(rows[0], ids, user) then [rows[0]] else [])
      + SelectedRows(rows[1..], ids, user)
  }

  /** The update keeps ids, owners and everything but the status: it never changes which
      rows the query selects. */
  lemma SetSelectedReadKeepsSelection(rows: seq<NotificationRecord>, ids: seq<int>, user: int)
    ensures UniqueIds(rows) ==> UniqueIds(SetSelectedRead(rows, ids, user))
    ensures forall i :: 0 <= i < |rows| ==>
      (Selected(SetSelectedRead(rows, ids, user)[i], ids, user) <==> Selected(rows[i], ids, user))
  {
  }

  /** After a request that passed validation, every listed id names a notification of the
      requesting user that is now read. */
  lemma ValidatedIdsAllRead(rows: seq<NotificationRecord>, ids: seq<int>, user: int, x: int)
    requires UniqueIds(rows)
    requires ValidateNotificationIds(rows, ids, user).Ok?
    requires x in ids
    ensures exists n :: n in SetSelectedRead(rows, ids, user) && n.id == x && n.user == user && n.status == Read
  {
    ValidateExactly(rows, ids, user);
    OwnedIdsAt(rows, user, x);
    var i :| 0 <= i < |rows| && rows[i].id == x && rows[i].user == user;
    assert Selected(rows[i], ids, user);
    var after := SetSelectedRead(rows, ids, user);
    assert after[i] in after && after[i].id == x && after[i].user == user && after[i].status == Read;
  }

  /** The `notifications` table the bulk request works on. */
  class NotificationTable {
    var rows: seq<NotificationRecord>

    ghost predicate Valid()
      reads this
    {
      UniqueIds(rows)
    }

    constructor (initial: seq<NotificationRecord>)
      requires UniqueIds(initial)
      ensures Valid() && rows == initial
    {
      rows := initial;
    }

    /** `validate_notification_ids` against the current table. */
    method Validate(ids: seq<int>, user: int) returns (r: Result<seq<int>, ValidationError>)
      requires Valid()
      ensures r == ValidateNotificationIds(rows, ids, user)
      ensures r.Ok? <==> ids != [] && Distinct(ids) && forall x :: x in ids ==> x in OwnedIds(rows, user)
    {
      ValidateExactly(rows, ids, user);
      r := ValidateNotificationIds(rows, ids, user);
    }

    /** `save()`: one update sets every listed notification of the user to read and leaves the
        rest of the table alone; the returned query, evaluated afterwards, holds those rows. */
    method Save(ids: seq<int>, user: int) returns (updated: seq<NotificationRecord>)
      requires Valid()
      modifies this
      ensures Valid()
      ensures rows == SetSelectedRead(old(rows), ids, user)
      ensures updated == SelectedRows(rows, ids, user)
      ensures forall n :: n in updated ==> n.status == Read && n.user == user && n.id in ids
    {
      SetSelectedReadKeepsSelection(rows, ids, user);
      rows := SetSelectedRead(rows, ids, user);
      updated := SelectedRows(rows, ids, user);
      forall n | n in updated ensures n.status == Read {
        var i :| 0 <= i < |rows| && rows[i] == n;
      }
    }
  }
}
