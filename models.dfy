/**
 * The tables of the e-learning application that the chat, enrollment and
 * notification rules touch, and the record types stored in them
 * (core/models.py). The relational database is one `Database` object whose
 * fields are the tables; each create/delete/update the application issues is
 * a method that changes exactly one table.
 */
module Models {
  import opened Seqs

  type UserId = nat
  type CourseId = nat
  /** Database timestamps are opaque, ordered instants. */
  type Timestamp = nat

  datatype Option<T> = None | Some(value: T)

  /** A row of the user table, with the columns the core reads. */
  datatype User = User(id: UserId, username: string, email: string, isStudent: bool, isTeacher: bool)

  /** A course, owned by the teacher who created it. */
  datatype Course = Course(title: string, teacher: UserId)

  /** A stored chat message: the author is mandatory, the room reference may be empty. */
  datatype ChatMessage = ChatMessage(author: User, room: Option<string>, text: string, timestamp: Timestamp)

  /** One student's enrollment in one course. */
  datatype Enrollment = Enrollment(student: UserId, course: CourseId, enrolledOn: Timestamp, blocked: bool)

  /** A notification row; `id` is its primary key. */
  datatype NotificationRow = NotificationRow(id: nat, user: Option<UserId>, content: string, createdAt: Timestamp, read: bool)

  datatype Feedback = Feedback(course: CourseId, student: UserId, content: string, rating: int, createdAt: Timestamp)

  datatype Material = Material(title: string, description: string, course: CourseId, createdAt: Timestamp)

  /** The rooms that every installation has: seeded after migration and listed apart on the chat home page. */
  const DefaultRoomNames: seq<string> := ["general", "math", "science"]

  /** Primary keys of the user table are unique. */
  predicate UserIdsUnique(users: seq<User>)
  {
    forall i, j :: 0 <= i < j < |users| ==> users[i].id != users[j].id
  }

  // ---------------------------------------------------------------------
  // Chat messages

  /** Storage order agrees with timestamp order. */
  predicate MessagesInTimeOrder(ms: seq<ChatMessage>)
  {
    forall i, j :: 0 <= i < j < |ms| ==> ms[i].timestamp <= ms[j].timestamp
  }

  // ---------------------------------------------------------------------
  // Enrollments

  predicate Enrolls(e: Enrollment, student: UserId, course: CourseId)
  {
    e.student == student && e.course == course
  }

  predicate IsEnrolled(rows: seq<Enrollment>, student: UserId, course: CourseId)
  {
    exists i :: 0 <= i < |rows| && Enrolls(rows[i], student, course)
  }

  /** The unique-together constraint on (student, course). */
  predicate UniquePairs(rows: seq<Enrollment>)
  {
    forall i, j :: 0 <= i < j < |rows| ==> !Enrolls(rows[j], rows[i].student, rows[i].course)
  }

  /** The table after a get-or-create of the pair: a new, unblocked row only when the pair is absent. */
  function EnrolledOnce(rows: seq<Enrollment>, student: UserId, course: CourseId, now: Timestamp): (r: seq<Enrollment>)
    ensures IsEnrolled(r, student, course)
    ensures UniquePairs(rows) ==> UniquePairs(r)
    ensures IsEnrolled(rows, student, course) ==> r == rows
    ensures !IsEnrolled(rows, student, course) ==> r == rows + [Enrollment(student, course, now, false)]
  {
    if IsEnrolled(rows, student, course) then rows
    else
      var r := rows + [Enrollment(student, course, now, false)];
      assert Enrolls(r[|rows|], student, course);
      r
  }

  /** Under the uniqueness constraint, the pair has exactly one row after a get-or-create. */
  lemma EnrolledOnceIsSingle(rows: seq<Enrollment>, student: UserId, course: CourseId, now: Timestamp, i: int, j: int)
    requires UniquePairs(rows)
    requires 0 <= i < |EnrolledOnce(rows, student, course, now)| && 0 <= j < |EnrolledOnce(rows, student, course, now)|
    requires Enrolls(EnrolledOnce(rows, student, course, now)[i], student, course)
    requires Enrolls(EnrolledOnce(rows, student, course, now)[j], student, course)
    ensures i == j
  {
    assert UniquePairs(EnrolledOnce(rows, student, course, now));
  }

  /** A repeated get-or-create of the same pair changes nothing. */
  lemma EnrolledOnceIdempotent(rows: seq<Enrollment>, student: UserId, course: CourseId, now: Timestamp, later: Timestamp)
    ensures EnrolledOnce(EnrolledOnce(rows, student, course, now), student, course, later) == EnrolledOnce(rows, student, course, now)
  {
  }

  /** The table after deleting every row of the pair; the other rows stay, in order. */
  function WithoutPair(rows: seq<Enrollment>, student: UserId, course: CourseId): (r: seq<Enrollment>)
    ensures forall e :: e in r <==> e in rows && !Enrolls(e, student, course)
    ensures |r| <= |rows|
  {
    if rows == [] then []
    else if Enrolls(rows[0], student, course) then WithoutPair(rows[1..], student, course)
    else [rows[0]] + WithoutPair(rows[1..], student, course)
  }

  /** Deleting the rows of a pair that has none changes nothing. */
  lemma {:induction false} WithoutAbsentPair(rows: seq<Enrollment>, student: UserId, course: CourseId)
    requires !IsEnrolled(rows, student, course)
    ensures WithoutPair(rows, student, course) == rows
  {
    if rows != [] {
      assert !Enrolls(rows[0], student, course);
      assert !IsEnrolled(rows[1..], student, course) by {
        forall k | 0 <= k < |rows[1..]| ensures !Enrolls(rows[1..][k], student, course) {
          assert rows[1..][k] == rows[k + 1];
        }
      }
      WithoutAbsentPair(rows[1..], student, course);
      assert rows == [rows[0]] + rows[1..];
    }
  }

  /**
   * Under the uniqueness constraint, deleting the pair's rows removes exactly
   * one row when the pair is enrolled and none otherwise, and the constraint
   * still holds.
   */
  lemma {:induction false} WithoutPairUnenrolls(rows: seq<Enrollment>, student: UserId, course: CourseId)
    requires UniquePairs(rows)
    ensures !IsEnrolled(WithoutPair(rows, student, course), student, course)
    ensures UniquePairs(WithoutPair(rows, student, course))
    ensures IsEnrolled(rows, student, course) ==> |WithoutPair(rows, student, course)| == |rows| - 1
    ensures !IsEnrolled(rows, student, course) ==> WithoutPair(rows, student, course) == rows
  {
    var r := WithoutPair(rows, student, course);
    if !IsEnrolled(rows, student, course) {
      WithoutAbsentPair(rows, student, course);
    } else if rows != [] {
      var rest := WithoutPair(rows[1..], student, course);
      assert UniquePairs(rows[1..]) by {
        forall i, j | 0 <= i < j < |rows[1..]| ensures !Enrolls(rows[1..][j], rows[1..][i].student, rows[1..][i].course) {
          assert rows[1..][i] == rows[i + 1] && rows[1..][j] == rows[j + 1];
        }
      }
      WithoutPairUnenrolls(rows[1..], student, course);
      if Enrolls(rows[0], student, course) {
        assert !IsEnrolled(rows[1..], student, course) by {
          forall k | 0 <= k < |rows[1..]| ensures !Enrolls(rows[1..][k], student, course) {
            assert rows[1..][k] == rows[k + 1];
          }
        }
      } else {
        assert r == [rows[0]] + rest;
        forall k | 0 <= k < |rest|
          ensures !Enrolls(rest[k], rows[0].student, rows[0].course)
        {
          assert rest[k] in rows[1..];
        }
        assert IsEnrolled(rows[1..], student, course) by {
          var k :| 0 <= k < |rows| && Enrolls(rows[k], student, course);
          assert rows[1..][k - 1] == rows[k];
        }
      }
    }
  }

  /** The table after setting the blocked flag of the pair's rows; nothing else changes. */
  function WithBlocked(rows: seq<Enrollment>, student: UserId, course: CourseId, blocked: bool): (r: seq<Enrollment>)
    ensures |r| == |rows|
    ensures forall i :: 0 <= i < |r| ==>
      r[i].student == rows[i].student && r[i].course == rows[i].course && r[i].enrolledOn == rows[i].enrolledOn
    ensures forall i :: 0 <= i < |r| && !Enrolls(rows[i], student, course) ==> r[i] == rows[i]
    ensures forall i :: 0 <= i < |r| && Enrolls(rows[i], student, course) ==> r[i].blocked == blocked
    ensures UniquePairs(rows) ==> UniquePairs(r)
  {
    if rows == [] then []
    else
      var head := if Enrolls(rows[0], student, course) then rows[0].(blocked := blocked) else rows[0];
      [head] + WithBlocked(rows[1..], student, course, blocked)
  }

  // ---------------------------------------------------------------------
  // Notifications

  /** Primary keys are handed out in creation order. */
  predicate NotificationsNumbered(rows: seq<NotificationRow>)
  {
    forall i :: 0 <= i < |rows| ==> rows[i].id == i
  }

  predicate NotificationsInTimeOrder(rows: seq<NotificationRow>)
  {
    forall i, j :: 0 <= i < j < |rows| ==> rows[i].createdAt <= rows[j].createdAt
  }

  /** The table after `UPDATE ... SET read = ... WHERE id = id`. */
  function WithRead(rows: seq<NotificationRow>, id: nat, read: bool): (r: seq<NotificationRow>)
    requires id < |rows|
    ensures |r| == |rows| && r[id].read == read
    ensures r[id] == rows[id].(read := read)
    ensures forall i :: 0 <= i < |rows| && i != id ==> r[i] == rows[i]
  {
    rows[id := rows[id].(read := read)]
  }

  /** Writing the same flag twice leaves the table as writing it once. */
  lemma WithReadIdempotent(rows: seq<NotificationRow>, id: nat, read: bool)
    requires id < |rows|
    ensures WithRead(WithRead(rows, id, read), id, read) == WithRead(rows, id, read)
  {
  }

  /** The default listing order of notifications: most recent first. */
  function ListedNewestFirst(rows: seq<NotificationRow>): seq<NotificationRow>
  {
    Reverse(rows)
  }

  /** When rows are stored in time order, the listing is the same rows in non-increasing `created_at`. */
  lemma ListedNewestFirstIsOrdered(rows: seq<NotificationRow>)
    requires NotificationsInTimeOrder(rows)
    ensures multiset(ListedNewestFirst(rows)) == multiset(rows)
    ensures forall i, j :: 0 <= i < j < |rows| ==> ListedNewestFirst(rows)[i].createdAt >= ListedNewestFirst(rows)[j].createdAt
  {
    ReversePermutes(rows);
  }

  // ---------------------------------------------------------------------
  // The database

  /**
   * The application's relational store. `clock` is the server clock that
   * `auto_now_add` and `default=timezone.now` columns read.
   */
  class Database {
    var clock: Timestamp
    var users: seq<User>
    var courses: map<CourseId, Course>
    var rooms: set<string>
    var messages: seq<ChatMessage>
    var enrollments: seq<Enrollment>
    var notifications: seq<NotificationRow>
    var feedbacks: seq<Feedback>
    var materials: seq<Material>

    /** The table constraints, and stored timestamps never lying in the future. */
    ghost predicate Valid()
      reads this
    {
      && UserIdsUnique(users)
      && MessagesInTimeOrder(messages)
      && (forall i :: 0 <= i < |messages| ==> messages[i].timestamp <= clock)
      && UniquePairs(enrollments)
      && NotificationsNumbered(notifications)
      && NotificationsInTimeOrder(notifications)
      && (forall i :: 0 <= i < |notifications| ==> notifications[i].createdAt <= clock)
    }

    constructor (users: seq<User>, courses: map<CourseId, Course>)
      requires UserIdsUnique(users)
      ensures Valid()
      ensures this.users == users && this.courses == courses && clock == 0
      ensures rooms == {} && messages == [] && enrollments == [] && notifications == []
      ensures feedbacks == [] && materials == []
    {
      clock := 0;
      this.users := users;
      this.courses := courses;
      rooms := {};
      messages := [];
      enrollments := [];
      notifications := [];
      feedbacks := [];
      materials := [];
    }

    /** Time passes; the clock never goes back. */
    method Tick(t: Timestamp)
      requires Valid() && clock <= t
      modifies this`clock
      ensures Valid() && clock == t
    {
      clock := t;
    }

    /** `ChatRoom.objects.get_or_create(name=name)`; room names are unique, so the table is a set. */
    method GetOrCreateRoom(name: string) returns (created: bool)
      requires Valid()
      modifies this`rooms
      ensures Valid()
      ensures created == (name !in old(rooms))
      ensures rooms == old(rooms) + {name}
    {
      created := name !in rooms;
      rooms := rooms + {name};
    }

    /** `ChatMessage.objects.create(...)`, stamped with the current time. */
    method CreateMessage(author: User, room: string, text: string)
      requires Valid()
      modifies this`messages
      ensures Valid()
      ensures messages == old(messages) + [ChatMessage(author, Some(room), text, clock)]
    {
      messages := messages + [ChatMessage(author, Some(room), text, clock)];
    }

    /** `Enrollment.objects.get_or_create(student=..., course=...)`. */
    method GetOrCreateEnrollment(student: UserId, course: CourseId) returns (created: bool)
      requires Valid()
      modifies this`enrollments
      ensures Valid()
      ensures created == !IsEnrolled(old(enrollments), student, course)
      ensures enrollments == EnrolledOnce(old(enrollments), student, course, clock)
    {
      created := !IsEnrolled(enrollments, student, course);
      enrollments := EnrolledOnce(enrollments, student, course, clock);
    }

    /** `Enrollment.objects.create(...)`: the unique constraint rejects a second row for the pair. */
    method CreateEnrollment(student: UserId, course: CourseId) returns (ok: bool)
      requires Valid()
      modifies this`enrollments
      ensures Valid()
      ensures ok == !IsEnrolled(old(enrollments), student, course)
      ensures ok ==> enrollments == old(enrollments) + [Enrollment(student, course, clock, false)]
      ensures !ok ==> enrollments == old(enrollments)
    {
      ok := !IsEnrolled(enrollments, student, course);
      if ok {
        enrollments := EnrolledOnce(enrollments, student, course, clock);
      }
    }

    /** `Enrollment.objects.filter(student=..., course=...).delete()`. */
    method DeleteEnrollments(student: UserId, course: CourseId)
      requires Valid()
      modifies this`enrollments
      ensures Valid()
      ensures enrollments == WithoutPair(old(enrollments), student, course)
    {
      WithoutPairUnenrolls(enrollments, student, course);
      enrollments := WithoutPair(enrollments, student, course);
    }

    /** Saving a fetched enrollment after changing its `blocked` flag. */
    method SaveBlocked(student: UserId, course: CourseId, blocked: bool)
      requires Valid()
      modifies this`enrollments
      ensures Valid()
      ensures enrollments == WithBlocked(old(enrollments), student, course, blocked)
    {
      enrollments := WithBlocked(enrollments, student, course, blocked);
    }

    /** `Notification.objects.create(user=..., content=...)`: unread, stamped now, next primary key. */
    method CreateNotification(user: Option<UserId>, content: string) returns (id: nat)
      requires Valid()
      modifies this`notifications
      ensures Valid()
      ensures id == |old(notifications)|
      ensures notifications == old(notifications) + [NotificationRow(id, user, content, clock, false)]
    {
      id := |notifications|;
      notifications := notifications + [NotificationRow(id, user, content, clock, false)];
    }

    /** `save(update_fields=['read'])`: fails when no row has the key, otherwise writes only `read`. */
    method SaveNotificationRead(id: nat, read: bool) returns (saved: bool)
      requires Valid()
      modifies this`notifications
      ensures Valid()
      ensures saved == (id < |old(notifications)|)
      ensures saved ==> notifications == WithRead(old(notifications), id, read)
      ensures !saved ==> notifications == old(notifications)
    {
      saved := id < |notifications|;
      if saved {
        notifications := WithRead(notifications, id, read);
      }
    }

    method CreateFeedback(course: CourseId, student: UserId, content: string, rating: int)
      requires Valid()
      modifies this`feedbacks
      ensures Valid()
      ensures feedbacks == old(feedbacks) + [Feedback(course, student, content, rating, clock)]
    {
      feedbacks := feedbacks + [Feedback(course, student, content, rating, clock)];
    }

    method CreateMaterial(title: string, description: string, course: CourseId) returns (m: Material)
      requires Valid()
      modifies this`materials
      ensures Valid()
      ensures m == Material(title, description, course, clock)
      ensures materials == old(materials) + [m]
    {
      m := Material(title, description, course, clock);
      materials := materials + [m];
    }
  }

  /** An in-memory `Notification` instance loaded from its row. */
  class Notification {
    const id: nat
    var user: Option<UserId>
    var content: string
    var createdAt: Timestamp
    var read: bool

    constructor Load(row: NotificationRow)
      ensures id == row.id && user == row.user && content == row.content
      ensures createdAt == row.createdAt && read == row.read
    {
      id := row.id;
      user := row.user;
      content := row.content;
      createdAt := row.createdAt;
      read := row.read;
    }

    /**
     * Sets `read` and saves that one column. The instance is updated even when
     * the save fails because the row is gone; its other columns, possibly stale,
     * are not written.
     */
    method MarkAsRead(db: Database) returns (saved: bool)
      requires db.Valid()
      modifies this`read, db`notifications
      ensures db.Valid()
      ensures read
      ensures saved == (id < |old(db.notifications)|)
      ensures saved ==> db.notifications == WithRead(old(db.notifications), id, true)
      ensures !saved ==> db.notifications == old(db.notifications)
    {
      read := true;
      saved := db.SaveNotificationRead(id, true);
    }

    /** Clears `read` and saves that one column, like `MarkAsRead`. */
    method MarkAsUnread(db: Database) returns (saved: bool)
      requires db.Valid()
      modifies this`read, db`notifications
      ensures db.Valid()
      ensures !read
      ensures saved == (id < |old(db.notifications)|)
      ensures saved ==> db.notifications == WithRead(old(db.notifications), id, false)
      ensures !saved ==> db.notifications == old(db.notifications)
    {
      read := false;
      saved := db.SaveNotificationRead(id, false);
    }
  }
}
