/**
 * The notification side of the messaging app: the read flags of messages
 * and notifications, the notification queries, and the signal handlers
 * that keep the notification table in step with the message and user
 * tables. The database is an in-memory object holding the three tables.
 */
module Messaging {
  import opened Python
  import opened Text
  import opened Threads

  type NoteId = nat

  /** `notification_type`: its four choices; `'message'` is the default. */
  datatype Kind = MessageNote | SystemNote | AlertNote | MessageEditNote

  /** A notification; `message` is the message it is about, if any. */
  datatype Notification = Notification(user: string, message: Option<MsgId>, kind: Kind, title: string,
                                       content: string, isRead: bool, createdAt: int, readAt: Option<int>)

  /** A row of the notification table. */
  datatype Row = Row(id: NoteId, note: Notification)

  /** Row ids rise along the table (rows are appended with ever larger ids), so they are distinct. */
  predicate Increasing(rows: seq<Row>) {
    forall i, j :: 0 <= i < j < |rows| ==> rows[i].id < rows[j].id
  }

  /** The rows after the first keep rising, above the first. */
  lemma TailIncreasing(rows: seq<Row>)
    requires Increasing(rows) && rows != []
    ensures Increasing(rows[1..])
    ensures forall x :: x in rows[1..] ==> rows[0].id < x.id
  {
    var tail := rows[1..];
    forall x | x in tail
      ensures rows[0].id < x.id
    {
      var j :| 0 <= j < |tail| && tail[j] == x;
      assert rows[j + 1] == x;
    }
    forall i, j | 0 <= i < j < |tail|
      ensures tail[i].id < tail[j].id
    {
      assert tail[i] == rows[i + 1] && tail[j] == rows[j + 1];
    }
  }

  /** A row below every id of a rising table may go in front of it. */
  lemma ConsIncreasing(h: Row, rest: seq<Row>)
    requires Increasing(rest) && forall x :: x in rest ==> h.id < x.id
    ensures Increasing([h] + rest)
  {
    var r := [h] + rest;
    forall i, j | 0 <= i < j < |r|
      ensures r[i].id < r[j].id
    {
      assert r[j] == rest[j - 1] && r[j] in rest;
      if i > 0 {
        assert r[i] == rest[i - 1];
      }
    }
  }

  /** Whether the table has a row with id `id`. */
  predicate HasRow(rows: seq<Row>, id: NoteId) {
    exists i :: 0 <= i < |rows| && rows[i].id == id
  }

  // ---------------------------------------------------------------------
  // Notification.mark_as_read and unread_count
  // ---------------------------------------------------------------------

  /** The notification after `mark_as_read` at time `now`: a read one is left as it is. */
  function ReadNote(n: Notification, now: int): (r: Notification)
    ensures r.isRead
    ensures n.isRead ==> r == n
    ensures !n.isRead ==> r == n.(isRead := true, readAt := Some(now))
  {
    if n.isRead then n else n.(isRead := true, readAt := Some(now))
  }

  /** The table after `mark_as_read` on row `id`: that row is read, every other row is untouched. */
  function MarkedRead(rows: seq<Row>, id: NoteId, now: int): (r: seq<Row>)
    ensures |r| == |rows|
    ensures forall i :: 0 <= i < |rows| ==>
      r[i].id == rows[i].id && r[i].note == if rows[i].id == id then ReadNote(rows[i].note, now) else rows[i].note
  {
    if rows == [] then []
    else
      var head := if rows[0].id == id then ReadNote(rows[0].note, now) else rows[0].note;
      [Row(rows[0].id, head)] + MarkedRead(rows[1..], id, now)
  }

  /** A second `mark_as_read`, at any later time, changes nothing: `read_at` keeps the first time. */
  lemma {:induction false} MarkedReadIdempotent(rows: seq<Row>, id: NoteId, now: int, later: int)
    ensures MarkedRead(MarkedRead(rows, id, now), id, later) == MarkedRead(rows, id, now)
  {
    var once := MarkedRead(rows, id, now);
    var twice := MarkedRead(once, id, later);
    assert |twice| == |once|;
    forall i | 0 <= i < |once|
      ensures twice[i] == once[i]
    {
    }
  }

  /** `unread_count(user)`: the number of the user's unread notifications. */
  function UnreadCount(rows: seq<Row>, user: string): (n: nat)
    ensures n <= |rows|
    ensures n == 0 <==> forall i :: 0 <= i < |rows| ==> rows[i].note.user != user || rows[i].note.isRead
  {
    if rows == [] then 0
    else (if rows[0].note.user == user && !rows[0].note.isRead then 1 else 0) + UnreadCount(rows[1..], user)
  }

  /** Whether row `id` is an unread notification of `user`. */
  predicate IsUnreadOf(rows: seq<Row>, id: NoteId, user: string) {
    exists i :: 0 <= i < |rows| && rows[i].id == id && rows[i].note.user == user && !rows[i].note.isRead
  }

  /** Marking a row that is absent leaves the table as it is. */
  lemma MarkedReadAbsent(rows: seq<Row>, id: NoteId, now: int)
    requires !HasRow(rows, id)
    ensures MarkedRead(rows, id, now) == rows
  {
    var r := MarkedRead(rows, id, now);
    forall i | 0 <= i < |rows|
      ensures r[i] == rows[i]
    {
    }
  }

  /** Whether row `id` of a non-empty table is unread and the user's: the first row, or one after it. */
  lemma IsUnreadOfCons(rows: seq<Row>, id: NoteId, user: string)
    requires rows != []
    ensures IsUnreadOf(rows, id, user) <==>
      (rows[0].id == id && rows[0].note.user == user && !rows[0].note.isRead) || IsUnreadOf(rows[1..], id, user)
  {
    var tail := rows[1..];
    if IsUnreadOf(rows, id, user) {
      var i :| 0 <= i < |rows| && rows[i].id == id && rows[i].note.user == user && !rows[i].note.isRead;
      if i > 0 {
        assert tail[i - 1] == rows[i];
      }
    }
    if IsUnreadOf(tail, id, user) {
      var i :| 0 <= i < |tail| && tail[i].id == id && tail[i].note.user == user && !tail[i].note.isRead;
      assert rows[i + 1] == tail[i];
    }
  }

  /**
   * Reading one notification lowers its user's unread count by one when
   * it was unread, and leaves every other count as it was.
   */
  lemma {:induction false} UnreadAfterMarkedRead(rows: seq<Row>, id: NoteId, now: int, user: string)
    requires Increasing(rows)
    ensures UnreadCount(MarkedRead(rows, id, now), user) + (if IsUnreadOf(rows, id, user) then 1 else 0)
         == UnreadCount(rows, user)
  {
    if rows != [] {
      var tail := rows[1..];
      assert MarkedRead(rows, id, now)[1..] == MarkedRead(tail, id, now);
      TailIncreasing(rows);
      IsUnreadOfCons(rows, id, user);
      if rows[0].id == id {
        assert !HasRow(tail, id) && !IsUnreadOf(tail, id, user);
        MarkedReadAbsent(tail, id, now);
      } else {
        UnreadAfterMarkedRead(tail, id, now, user);
      }
    }
  }

  // ---------------------------------------------------------------------
  // get_recent_notifications
  // ---------------------------------------------------------------------

  /** The default `limit` of `get_recent_notifications`. */
  const DefaultRecentLimit: nat := 10

  /** `filter(user=user)`: the user's rows, in table order. */
  function ForUser(rows: seq<Row>, user: string): (r: seq<Row>)
    ensures forall x :: x in r <==> x in rows && x.note.user == user
    ensures multiset(r) <= multiset(rows)
    ensures forall x :: x in multiset(rows) && x.note.user == user ==> multiset(r)[x] == multiset(rows)[x]
  {
    if rows == [] then []
    else
      assert rows == [rows[0]] + rows[1..];
      if rows[0].note.user == user then [rows[0]] + ForUser(rows[1..], user) else ForUser(rows[1..], user)
  }

  /** Newest first: `created_at` never rises along the sequence. */
  predicate NewestFirst(rows: seq<Row>) {
    forall i, j :: 0 <= i < j < |rows| ==> rows[i].note.createdAt >= rows[j].note.createdAt
  }

  /** A row no newer than `h` may follow it in a newest-first sequence. */
  lemma ConsNewestFirst(h: Row, rest: seq<Row>)
    requires NewestFirst(rest)
    requires forall y :: y in rest ==> y.note.createdAt <= h.note.createdAt
    ensures NewestFirst([h] + rest)
  {
    var r := [h] + rest;
    forall i, j | 0 <= i < j < |r|
      ensures r[i].note.createdAt >= r[j].note.createdAt
    {
      assert r[j] == rest[j - 1];
      if i > 0 {
        assert r[i] == rest[i - 1];
      }
    }
  }

  /** The head of a newest-first sequence is no older than the rest, which is newest-first too. */
  lemma HeadIsNewest(sorted: seq<Row>)
    requires NewestFirst(sorted) && sorted != []
    ensures NewestFirst(sorted[1..])
    ensures forall y :: y in sorted[1..] ==> y.note.createdAt <= sorted[0].note.createdAt
  {
    forall y | y in sorted[1..]
      ensures y.note.createdAt <= sorted[0].note.createdAt
    {
      var j :| 0 <= j < |sorted[1..]| && sorted[1..][j] == y;
      assert sorted[j + 1] == y;
    }
    forall i, j | 0 <= i < j < |sorted[1..]|
      ensures sorted[1..][i].note.createdAt >= sorted[1..][j].note.createdAt
    {
      assert sorted[1..][i] == sorted[i + 1] && sorted[1..][j] == sorted[j + 1];
    }
  }

  /** A prefix of a newest-first sequence is newest-first, and holds only rows of it. */
  lemma PrefixNewestFirst(sorted: seq<Row>, k: nat)
    requires NewestFirst(sorted) && k <= |sorted|
    ensures NewestFirst(sorted[..k])
    ensures forall x :: x in sorted[..k] ==> x in sorted
  {
    forall i, j | 0 <= i < j < k
      ensures sorted[..k][i].note.createdAt >= sorted[..k][j].note.createdAt
    {
      assert sorted[..k][i] == sorted[i] && sorted[..k][j] == sorted[j];
    }
    forall x | x in sorted[..k]
      ensures x in sorted
    {
      var j :| 0 <= j < k && sorted[..k][j] == x;
      assert sorted[j] == x;
    }
  }

  /** Puts `x` into a newest-first sequence, before the rows no newer than it. */
  function Insert(x: Row, sorted: seq<Row>): (r: seq<Row>)
    requires NewestFirst(sorted)
    ensures NewestFirst(r)
    ensures forall y :: y in r <==> y == x || y in sorted
    ensures multiset(r) == multiset(sorted) + multiset{x}
  {
    if sorted == [] || x.note.createdAt >= sorted[0].note.createdAt then
      ConsNewestFirst(x, sorted);
      [x] + sorted
    else
      HeadIsNewest(sorted);
      var rest := Insert(x, sorted[1..]);
      assert sorted == [sorted[0]] + sorted[1..];
      ConsNewestFirst(sorted[0], rest);
      [sorted[0]] + rest
  }

  /** `order_by('-created_at')`: the rows sorted newest first; rows created at the same time stay together in no promised order. */
  function SortNewestFirst(rows: seq<Row>): (r: seq<Row>)
    ensures NewestFirst(r)
    ensures forall y :: y in r <==> y in rows
    ensures multiset(r) == multiset(rows)
  {
    if rows == [] then []
    else
      assert rows == [rows[0]] + rows[1..];
      Insert(rows[0], SortNewestFirst(rows[1..]))
  }

  /** `get_recent_notifications(user, limit)`: the user's notifications, newest first, cut to `limit`. */
  function Recent(rows: seq<Row>, user: string, limit: nat): (r: seq<Row>)
    ensures |r| <= limit && NewestFirst(r)
    ensures forall x :: x in r ==> x in rows && x.note.user == user
  {
    var sorted := SortNewestFirst(ForUser(rows, user));
    var k := if limit < |sorted| then limit else |sorted|;
    PrefixNewestFirst(sorted, k);
    sorted[..k]
  }

  /** What a newest-first sequence leaves out past its first `k` rows is no newer than what it keeps. */
  lemma PrefixIsNewest(sorted: seq<Row>, k: nat)
    requires NewestFirst(sorted) && k <= |sorted|
    ensures multiset(sorted) - multiset(sorted[..k]) == multiset(sorted[k..])
    ensures forall x, y :: x in multiset(sorted[k..]) && y in sorted[..k] ==> x.note.createdAt <= y.note.createdAt
  {
    assert sorted == sorted[..k] + sorted[k..];
    forall x, y | x in multiset(sorted[k..]) && y in sorted[..k]
      ensures x.note.createdAt <= y.note.createdAt
    {
      var j :| 0 <= j < |sorted[k..]| && sorted[k..][j] == x;
      var i :| 0 <= i < k && sorted[..k][i] == y;
      assert sorted[i] == y && sorted[k + j] == x;
    }
  }

  /**
   * `get_recent_notifications` keeps the newest: it returns `limit` rows,
   * or all of the user's rows when there are fewer; and every row of the
   * user it leaves out is no newer than any row it returns.
   */
  lemma RecentAreNewest(rows: seq<Row>, user: string, limit: nat)
    ensures var r := Recent(rows, user, limit);
      multiset(r) <= multiset(ForUser(rows, user))
      && (|r| == limit || multiset(r) == multiset(ForUser(rows, user)))
      && forall x, y :: x in multiset(ForUser(rows, user)) - multiset(r) && y in r ==> x.note.createdAt <= y.note.createdAt
  {
    var f := ForUser(rows, user);
    var sorted := SortNewestFirst(f);
    assert Recent(rows, user, limit) == sorted[..if limit < |sorted| then limit else |sorted|];
    PrefixKeepsNewest(f, sorted, limit);
  }

  /** Cutting a newest-first arrangement of `f` to `limit` rows keeps the newest rows of `f`. */
  lemma PrefixKeepsNewest(f: seq<Row>, sorted: seq<Row>, limit: nat)
    requires NewestFirst(sorted) && multiset(sorted) == multiset(f)
    ensures var r := sorted[..if limit < |sorted| then limit else |sorted|];
      multiset(r) <= multiset(f)
      && (|r| == limit || multiset(r) == multiset(f))
      && forall x, y :: x in multiset(f) - multiset(r) && y in r ==> x.note.createdAt <= y.note.createdAt
  {
    var r := sorted[..if limit < |sorted| then limit else |sorted|];
    PrefixIsNewest(sorted, |r|);
    assert multiset(sorted) == multiset(r) + multiset(sorted[|r|..]);
    if |r| < limit {
      assert r == sorted;
    }
    forall x: Row, y: Row | x in multiset(f) - multiset(r) && y in r
      ensures x.note.createdAt <= y.note.createdAt
    {
      assert x in multiset(sorted[|r|..]);
    }
  }

  // ---------------------------------------------------------------------
  // Notification texts
  // ---------------------------------------------------------------------

  /** How many characters of a message its notification quotes. */
  const PreviewLength: nat := 50

  /** `content[:50]` followed by `'...'` when the message is longer than 50 characters. */
  function Preview(content: string): (p: string)
    ensures |content| <= PreviewLength ==> p == content
    ensures |content| > PreviewLength ==>
      |p| == PreviewLength + 3 && p[..PreviewLength] == content[..PreviewLength] && p[PreviewLength..] == "..."
  {
    if |content| > PreviewLength then content[..PreviewLength] + "..." else content
  }

  /** The notification `create_message_notification` adds for the new message `m` with id `id`. */
  function NewMessageNote(id: MsgId, m: Message, now: int): (n: Notification)
    ensures n.user == m.receiver && n.message == Some(id) && n.kind == MessageNote
    ensures n.title == "New message from " + m.sender
    ensures StartsWith(n.content, m.sender) && Contains(n.content, Preview(m.content))
    ensures !n.isRead && n.createdAt == now && n.readAt == None
  {
    var content := m.sender + " sent you a message: " + Preview(m.content);
    assert content[..|m.sender|] == m.sender;
    ContainsMiddle(m.sender + " sent you a message: ", Preview(m.content), "");
    assert m.sender + " sent you a message: " + Preview(m.content) + "" == content;
    Notification(m.receiver, Some(id), MessageNote, "New message from " + m.sender, content, false, now, None)
  }

  /** The title of the welcome notification. */
  const WelcomeTitle: string := "Welcome to our messaging platform!"

  /** The notification `create_welcome_notification` adds for the new user `username`. */
  function WelcomeNote(username: string, now: int): (n: Notification)
    ensures n.user == username && n.message == None && n.kind == SystemNote
    ensures StartsWith(n.title, "Welcome") && Contains(n.content, username)
    ensures !n.isRead && n.createdAt == now && n.readAt == None
  {
    var content := "Hello " + username + ", welcome to our platform! Start sending messages to connect with others.";
    ContainsMiddle("Hello ", username, ", welcome to our platform! Start sending messages to connect with others.");
    assert WelcomeTitle[..7] == "Welcome";
    Notification(username, None, SystemNote, WelcomeTitle, content, false, now, None)
  }

  // ---------------------------------------------------------------------
  // The queries behind the signal handlers
  // ---------------------------------------------------------------------

  /**
   * `filter(message=m, is_read=False).update(is_read=True)`: the rows about
   * message `id` become read, `read_at` is not touched, and no other row changes.
   */
  function ReadForMessage(rows: seq<Row>, id: MsgId): (r: seq<Row>)
    ensures |r| == |rows|
    ensures forall i :: 0 <= i < |rows| ==>
      r[i].id == rows[i].id
      && r[i].note.isRead == (rows[i].note.isRead || rows[i].note.message == Some(id))
      && r[i].note == rows[i].note.(isRead := r[i].note.isRead)
  {
    if rows == [] then []
    else
      var n := rows[0].note;
      var head := if n.message == Some(id) && !n.isRead then n.(isRead := true) else n;
      [Row(rows[0].id, head)] + ReadForMessage(rows[1..], id)
  }

  /** Running the update again changes nothing. */
  lemma ReadForMessageIdempotent(rows: seq<Row>, id: MsgId)
    ensures ReadForMessage(ReadForMessage(rows, id), id) == ReadForMessage(rows, id)
  {
    var once := ReadForMessage(rows, id);
    var twice := ReadForMessage(once, id);
    forall i | 0 <= i < |once|
      ensures twice[i] == once[i]
    {
    }
  }

  /** `filter(message=m).delete()`: exactly the rows about message `id` go; the ids of the rest stay rising (`WithoutMessageIncreasing`). */
  function WithoutMessage(rows: seq<Row>, id: MsgId): (r: seq<Row>)
    ensures forall x :: x in r <==> x in rows && x.note.message != Some(id)
    ensures |r| <= |rows|
  {
    if rows == [] then []
    else
      var rest := WithoutMessage(rows[1..], id);
      if rows[0].note.message == Some(id) then rest else [rows[0]] + rest
  }

  /** Deleting rows keeps the ids rising. */
  lemma {:induction false} WithoutMessageIncreasing(rows: seq<Row>, id: MsgId)
    requires Increasing(rows)
    ensures Increasing(WithoutMessage(rows, id))
  {
    if rows != [] {
      TailIncreasing(rows);
      WithoutMessageIncreasing(rows[1..], id);
      if rows[0].note.message != Some(id) {
        ConsIncreasing(rows[0], WithoutMessage(rows[1..], id));
      }
    }
  }

  // ---------------------------------------------------------------------
  // The database and the operations that change it
  // ---------------------------------------------------------------------

  /** The users, messages and notifications tables, with the next notification id. */
  class Database {
    var users: set<string>
    var messages: map<MsgId, Message>
    var notifications: seq<Row>
    var nextId: NoteId

    /** Notification ids rise along the table and stay below the next one handed out. */
    ghost predicate Valid()
      reads this
    {
      Increasing(notifications) && forall i :: 0 <= i < |notifications| ==> notifications[i].id < nextId
    }

    constructor ()
      ensures Valid()
      ensures users == {} && messages == map[] && notifications == [] && nextId == 0
    {
      users := {};
      messages := map[];
      notifications := [];
      nextId := 0;
    }

    /** Appends a notification under a fresh id. */
    method AddNotification(n: Notification)
      requires Valid()
      modifies this
      ensures Valid()
      ensures notifications == old(notifications) + [Row(old(nextId), n)] && nextId == old(nextId) + 1
      ensures users == old(users) && messages == old(messages)
    {
      notifications := notifications + [Row(nextId, n)];
      nextId := nextId + 1;
    }

    /** `create_message_notification`: a new message gets one notification for its receiver. */
    method CreateMessageNotification(id: MsgId, m: Message, created: bool, now: int)
      requires Valid()
      modifies this
      ensures Valid()
      ensures created ==> notifications == old(notifications) + [Row(old(nextId), NewMessageNote(id, m, now))]
      ensures created ==> nextId == old(nextId) + 1
      ensures !created ==> notifications == old(notifications) && nextId == old(nextId)
      ensures users == old(users) && messages == old(messages)
    {
      if created {
        AddNotification(NewMessageNote(id, m, now));
      }
    }

    /** `mark_notification_read_on_message_read`: an updated, read message marks its notifications read. */
    method MarkNotificationReadOnMessageRead(id: MsgId, m: Message, created: bool)
      requires Valid()
      modifies this
      ensures Valid()
      ensures notifications == if !created && m.isRead then ReadForMessage(old(notifications), id) else old(notifications)
      ensures users == old(users) && messages == old(messages) && nextId == old(nextId)
    {
      if !created && m.isRead {
        notifications := ReadForMessage(notifications, id);
      }
    }

    /** `message.save()`: the row is inserted or updated, then both `post_save` handlers run. */
    method SaveMessage(id: MsgId, m: Message, now: int) returns (created: bool)
      requires Valid()
      modifies this
      ensures Valid()
      ensures created == (id !in old(messages))
      ensures messages == old(messages)[id := m] && users == old(users)
      ensures created ==> notifications == old(notifications) + [Row(old(nextId), NewMessageNote(id, m, now))]
      ensures !created ==> notifications == if m.isRead then ReadForMessage(old(notifications), id) else old(notifications)
      ensures nextId == old(nextId) + (if created then 1 else 0)
    {
      created := id !in messages;
      messages := messages[id := m];
      CreateMessageNotification(id, m, created, now);
      MarkNotificationReadOnMessageRead(id, m, created);
    }

    /**
     * `Message.mark_as_read`: an unread message becomes read and is saved,
     * which marks its notifications read; a read message is left alone.
     */
    method MarkMessageRead(id: MsgId, now: int)
      requires Valid() && id in messages
      modifies this
      ensures Valid()
      ensures messages == old(messages)[id := old(messages)[id].(isRead := true)] && users == old(users)
      ensures old(messages)[id].isRead ==> messages == old(messages) && notifications == old(notifications)
      ensures !old(messages)[id].isRead ==> notifications == ReadForMessage(old(notifications), id)
      ensures nextId == old(nextId)
    {
      var m := messages[id];
      if !m.isRead {
        var _ := SaveMessage(id, m.(isRead := true), now);
      }
    }

    /** `Message.mark_as_edited`: sets the edited flag and time and saves, so a read message marks its notifications read. */
    method MarkMessageEdited(id: MsgId, now: int)
      requires Valid() && id in messages
      modifies this
      ensures Valid()
      ensures messages == old(messages)[id := old(messages)[id].(edited := true, lastEditedAt := Some(now))]
      ensures notifications == if old(messages)[id].isRead then ReadForMessage(old(notifications), id) else old(notifications)
      ensures users == old(users) && nextId == old(nextId)
    {
      var m := messages[id].(edited := true, lastEditedAt := Some(now));
      var _ := SaveMessage(id, m, now);
    }

    /** `message.delete()` followed by `delete_related_notifications`. */
    method DeleteMessage(id: MsgId)
      requires Valid() && id in messages
      modifies this
      ensures Valid()
      ensures messages == old(messages) - {id} && users == old(users) && nextId == old(nextId)
      ensures notifications == WithoutMessage(old(notifications), id)
    {
      messages := messages - {id};
      WithoutMessageIncreasing(notifications, id);
      notifications := WithoutMessage(notifications, id);
    }

    /** `user.save()` followed by `create_welcome_notification`: a new user is welcomed once. */
    method SaveUser(username: string, now: int) returns (created: bool)
      requires Valid()
      modifies this
      ensures Valid()
      ensures created == (username !in old(users)) && users == old(users) + {username}
      ensures messages == old(messages)
      ensures created ==> notifications == old(notifications) + [Row(old(nextId), WelcomeNote(username, now))]
      ensures created ==> nextId == old(nextId) + 1
      ensures !created ==> notifications == old(notifications) && nextId == old(nextId)
    {
      created := username !in users;
      users := users + {username};
      if created {
        AddNotification(WelcomeNote(username, now));
      }
    }

    /** `Notification.mark_as_read` on the row `id`. */
    method MarkNotificationRead(id: NoteId, now: int)
      requires Valid() && HasRow(notifications, id)
      modifies this
      ensures Valid()
      ensures notifications == MarkedRead(old(notifications), id, now)
      ensures users == old(users) && messages == old(messages) && nextId == old(nextId)
    {
      notifications := MarkedRead(notifications, id, now);
    }
  }
}
