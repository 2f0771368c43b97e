/**
 * The request handlers that change the room and enrollment tables, or that
 * partition them for display (core/views.py). Each handler is a method on the
 * database; its response records only where the user is sent next.
 */
module Views {
  import opened Models
  import opened Forms
  import opened Notify

  datatype HttpMethod = Get | Post

  /** The pages a handler can redirect to. */
  datatype Page = ChatHomePage | RoomPage(name: string) | CourseDetailPage(course: CourseId)

  /** What a handler answers: a redirect, its own page, a 404, or an unhandled exception (500). */
  datatype Response = Redirect(to: Page) | Rendered | NotFound | ServerError

  // ---------------------------------------------------------------------
  // Chat home

  datatype RoomListing = RoomListing(recentRooms: set<string>, defaultRooms: set<string>)

  /** The chat home page lists the default rooms apart from every other room. */
  function ChatHome(rooms: set<string>): (listing: RoomListing)
    ensures listing.recentRooms !! listing.defaultRooms
    ensures listing.recentRooms + listing.defaultRooms == rooms
    ensures forall n :: n in listing.defaultRooms <==> n in rooms && n in DefaultRoomNames
  {
    var defaults := set n | n in DefaultRoomNames;
    RoomListing(rooms - defaults, rooms * defaults)
  }

  // ---------------------------------------------------------------------
  // Room creation

  /** The characters that Python's `str.strip()` removes. */
  predicate IsSpace(c: char)
  {
    || ('\t' <= c <= '\r')
    || ('\U{001C}' <= c <= ' ')
    || c == '\U{0085}' || c == '\U{00A0}' || c == '\U{1680}'
    || ('\U{2000}' <= c <= '\U{200A}')
    || c == '\U{2028}' || c == '\U{2029}' || c == '\U{202F}' || c == '\U{205F}' || c == '\U{3000}'
  }

  /** `s` without its leading whitespace: a suffix of `s` that is empty or starts with a non-space. */
  function TrimStart(s: string): (r: string)
    ensures |r| <= |s| && r == s[|s| - |r|..]
    ensures r == [] || !IsSpace(s[|s| - |r|])
  {
    if s != [] && IsSpace(s[0]) then TrimStart(s[1..]) else s
  }

  /** Everything `TrimStart` drops is whitespace. */
  lemma {:induction false} TrimStartDropsOnlySpace(s: string)
    ensures forall i :: 0 <= i < |s| - |TrimStart(s)| ==> IsSpace(s[i])
  {
    if s != [] && IsSpace(s[0]) {
      TrimStartDropsOnlySpace(s[1..]);
      forall i | 1 <= i < |s| - |TrimStart(s)| ensures IsSpace(s[i]) {
        assert s[i] == s[1..][i - 1];
      }
    }
  }

  /** `s` without its trailing whitespace: a prefix of `s` that is empty or ends with a non-space. */
  function TrimEnd(s: string): (r: string)
    ensures |r| <= |s| && r == s[..|r|]
    ensures r == [] || !IsSpace(s[|r| - 1])
  {
    if s != [] && IsSpace(s[|s| - 1]) then TrimEnd(s[..|s| - 1]) else s
  }

  /** Everything `TrimEnd` drops is whitespace. */
  lemma {:induction false} TrimEndDropsOnlySpace(s: string)
    ensures forall i :: |TrimEnd(s)| <= i < |s| ==> IsSpace(s[i])
  {
    if s != [] && IsSpace(s[|s| - 1]) {
      TrimEndDropsOnlySpace(s[..|s| - 1]);
    }
  }

  /** Python's `str.strip()`: both ends trimmed; the result neither starts nor ends with whitespace. */
  function Strip(s: string): (r: string)
    ensures |r| <= |s|
    ensures r == [] || (!IsSpace(r[0]) && !IsSpace(r[|r| - 1]))
  {
    var t := TrimStart(s);
    var r := TrimEnd(t);
    assert r == [] || r[0] == t[0];
    r
  }

  /** A stripped name is empty exactly when the submitted name is all whitespace. */
  lemma StripEmptyIffBlank(s: string)
    ensures Strip(s) == [] <==> forall i :: 0 <= i < |s| ==> IsSpace(s[i])
  {
    var t := TrimStart(s);
    TrimStartDropsOnlySpace(s);
    TrimEndDropsOnlySpace(t);
    if Strip(s) == [] {
      assert t == [];
    }
    if forall i :: 0 <= i < |s| ==> IsSpace(s[i]) {
      assert t == [];
    }
  }

  /** Trimming the front of a concatenation: the second part is reached only when the first is all whitespace. */
  lemma {:induction false} TrimStartAppend(s: string, t: string)
    ensures TrimStart(s + t) == if TrimStart(s) == [] then TrimStart(t) else TrimStart(s) + t
  {
    if s == [] {
      assert s + t == t;
    } else if IsSpace(s[0]) {
      assert (s + t)[1..] == s[1..] + t;
      TrimStartAppend(s[1..], t);
    }
  }

  lemma {:induction false} TrimStartOfSpace(s: string)
    requires forall i :: 0 <= i < |s| ==> IsSpace(s[i])
    ensures TrimStart(s) == []
  {
    if s != [] {
      TrimStartOfSpace(s[1..]);
    }
  }

  /** Trailing whitespace appended to a string is trimmed away with its own. */
  lemma {:induction false} TrimEndOfPadded(s: string, t: string)
    requires forall i :: 0 <= i < |t| ==> IsSpace(t[i])
    ensures TrimEnd(s + t) == TrimEnd(s)
  {
    if t == [] {
      assert s + t == s;
    } else {
      assert (s + t)[..|s + t| - 1] == s + t[..|t| - 1];
      TrimEndOfPadded(s, t[..|t| - 1]);
    }
  }

  /** Whitespace added around a string does not change what it strips to. */
  lemma StripPadded(s: string, front: string, back: string)
    requires forall i :: 0 <= i < |front| ==> IsSpace(front[i])
    requires forall i :: 0 <= i < |back| ==> IsSpace(back[i])
    ensures Strip(front + s + back) == Strip(s)
  {
    assert front + s + back == front + (s + back);
    TrimStartOfSpace(front);
    TrimStartAppend(front, s + back);
    TrimStartOfSpace(back);
    TrimStartAppend(s, back);
    if TrimStart(s) != [] {
      TrimEndOfPadded(TrimStart(s), back);
    }
  }

  /** Stripping an already stripped name changes nothing. */
  lemma StripIdempotent(s: string)
    ensures Strip(Strip(s)) == Strip(s)
  {
    var u := Strip(s);
    if u != [] {
      assert TrimStart(u) == u;
      assert TrimEnd(u) == u;
    }
  }

  /** Whether the room page's address can be built for a name: the route's `str` segment matches one or more characters other than `/`. */
  predicate RoutableRoomName(name: string)
  {
    name != [] && '/' !in name
  }

  /**
   * `create_room`: a POST with a name that is not blank after stripping
   * gets-or-creates the room under the stripped name and joins it; anything
   * else lands on the chat home with the rooms unchanged. A POST without the
   * field fails before touching the table; a name with a `/` in it is stored
   * and then fails, because no room address can be built for it.
   */
  method CreateRoom(db: Database, httpMethod: HttpMethod, roomNameField: Option<string>) returns (resp: Response)
    requires db.Valid()
    modifies db`rooms
    ensures db.Valid()
    ensures httpMethod == Get ==> resp == Redirect(ChatHomePage) && db.rooms == old(db.rooms)
    ensures httpMethod == Post && roomNameField.None? ==> resp == ServerError && db.rooms == old(db.rooms)
    ensures httpMethod == Post && roomNameField.Some? && Strip(roomNameField.value) == [] ==>
      resp == Redirect(ChatHomePage) && db.rooms == old(db.rooms)
    ensures httpMethod == Post && roomNameField.Some? && Strip(roomNameField.value) != [] ==>
      && db.rooms == old(db.rooms) + {Strip(roomNameField.value)}
      && resp == if RoutableRoomName(Strip(roomNameField.value)) then Redirect(RoomPage(Strip(roomNameField.value))) else ServerError
  {
    if httpMethod == Post {
      if roomNameField.None? {
        return ServerError;
      }
      var roomName := Strip(roomNameField.value);
      if roomName != [] {
        var _ := db.GetOrCreateRoom(roomName);
        if !RoutableRoomName(roomName) {
          return ServerError;
        }
        return Redirect(RoomPage(roomName));
      }
    }
    resp := Redirect(ChatHomePage);
  }

  // ---------------------------------------------------------------------
  // Enrollment by students

  /**
   * `enroll`: a student gets-or-creates their enrollment; anyone else changes
   * nothing. An unknown course is a 404.
   */
  method Enroll(db: Database, user: User, courseId: CourseId) returns (resp: Response)
    requires db.Valid()
    modifies db`enrollments
    ensures db.Valid()
    ensures courseId !in db.courses ==> resp == NotFound && db.enrollments == old(db.enrollments)
    ensures courseId in db.courses ==> resp == Redirect(CourseDetailPage(courseId))
    ensures courseId in db.courses && user.isStudent ==>
      db.enrollments == EnrolledOnce(old(db.enrollments), user.id, courseId, db.clock)
    ensures !user.isStudent ==> db.enrollments == old(db.enrollments)
  {
    if courseId !in db.courses {
      return NotFound;
    }
    if user.isStudent {
      var _ := db.GetOrCreateEnrollment(user.id, courseId);
    }
    resp := Redirect(CourseDetailPage(courseId));
  }

  /** The fields of a POST to a course's page that the handler reads. `rating` is `None` when missing or not an integer. */
  datatype PostData = PostData(submitFeedback: bool, unenroll: bool, enroll: bool, content: string, rating: Option<int>)

  datatype StudentAction = SubmitFeedback | Unenroll | EnrollInCourse | NoAction

  /** Which branch of the course page's POST handling runs: each action is open only to students, and only in the right enrollment state. */
  function CourseDetailAction(isStudent: bool, isEnrolled: bool, post: PostData): (a: StudentAction)
    ensures a == SubmitFeedback <==> isStudent && isEnrolled && post.submitFeedback
    ensures a == Unenroll <==> isStudent && isEnrolled && !post.submitFeedback && post.unenroll
    ensures a == EnrollInCourse <==> isStudent && !isEnrolled && post.enroll
    ensures !isStudent ==> a == NoAction
  {
    if !isStudent then NoAction
    else if post.submitFeedback && isEnrolled then SubmitFeedback
    else if post.unenroll && isEnrolled then Unenroll
    else if post.enroll && !isEnrolled then EnrollInCourse
    else NoAction
  }

  /** The range Django's base database backend gives an `IntegerField`, which the form field enforces. */
  const IntegerFieldMin: int := -0x8000_0000
  const IntegerFieldMax: int := 0x7FFF_FFFF

  /**
   * The feedback form accepts a parsable rating within the column's range and
   * content without NUL characters that passes its length check once the
   * text field has stripped it.
   */
  function FeedbackFormValid(post: PostData): (ok: bool)
    ensures ok <==> && post.rating.Some? && IntegerFieldMin <= post.rating.value <= IntegerFieldMax
                    && '\0' !in Strip(post.content) && |Strip(post.content)| >= MinFeedbackLength
  {
    && post.rating.Some? && IntegerFieldMin <= post.rating.value <= IntegerFieldMax
    && '\0' !in Strip(post.content) && CleanContent(Strip(post.content)).Ok?
  }

  /** Whitespace around the feedback never decides whether the form accepts it. */
  lemma FeedbackValidityIgnoresPadding(post: PostData, front: string, back: string)
    requires forall i :: 0 <= i < |front| ==> IsSpace(front[i])
    requires forall i :: 0 <= i < |back| ==> IsSpace(back[i])
    ensures FeedbackFormValid(post.(content := front + post.content + back)) == FeedbackFormValid(post)
  {
    StripPadded(post.content, front, back);
  }

  /** Five letters padded with spaces to ten characters are too short. */
  lemma PaddedShortFeedbackRefused()
    ensures !FeedbackFormValid(PostData(true, false, false, "hello     ", Some(5)))
  {
    var word := "hello";
    assert !IsSpace(word[0]) && !IsSpace(word[|word| - 1]);
    assert TrimStart(word) == word;
    assert TrimEnd(word) == word;
    StripPadded(word, "", "     ");
    assert "hello     " == "" + word + "     ";
  }

  /**
   * The POST branches of `course_detail`. Enrolled students may leave feedback
   * or unenroll; students who are not enrolled may enroll, which notifies the
   * course's teacher. Every other request changes nothing. An unknown course
   * is a 404.
   */
  method CourseDetailPost(db: Database, user: User, courseId: CourseId, post: PostData) returns (resp: Response)
    requires db.Valid()
    modifies db`enrollments, db`feedbacks, db`notifications
    ensures db.Valid()
    ensures courseId !in db.courses ==>
      resp == NotFound &&
      db.enrollments == old(db.enrollments) && db.feedbacks == old(db.feedbacks) && db.notifications == old(db.notifications)
    ensures courseId in db.courses ==> resp == Redirect(CourseDetailPage(courseId))
    ensures (courseId in db.courses &&
             CourseDetailAction(user.isStudent, IsEnrolled(old(db.enrollments), user.id, courseId), post) == SubmitFeedback) ==>
      && db.enrollments == old(db.enrollments) && db.notifications == old(db.notifications)
      && db.feedbacks == old(db.feedbacks) +
           (if FeedbackFormValid(post) then [Feedback(courseId, user.id, Strip(post.content), post.rating.value, db.clock)] else [])
    ensures (courseId in db.courses &&
             CourseDetailAction(user.isStudent, IsEnrolled(old(db.enrollments), user.id, courseId), post) == Unenroll) ==>
      && db.enrollments == WithoutPair(old(db.enrollments), user.id, courseId)
      && db.feedbacks == old(db.feedbacks) && db.notifications == old(db.notifications)
    ensures (courseId in db.courses &&
             CourseDetailAction(user.isStudent, IsEnrolled(old(db.enrollments), user.id, courseId), post) == EnrollInCourse) ==>
      && db.enrollments == old(db.enrollments) + [Enrollment(user.id, courseId, db.clock, false)]
      && db.notifications == old(db.notifications) + [NotificationRow(|old(db.notifications)|, Some(db.courses[courseId].teacher),
                                                                       EnrollmentNotice(user.username, db.courses[courseId].title), db.clock, false)]
      && db.feedbacks == old(db.feedbacks)
    ensures (courseId in db.courses &&
             CourseDetailAction(user.isStudent, IsEnrolled(old(db.enrollments), user.id, courseId), post) == NoAction) ==>
      db.enrollments == old(db.enrollments) && db.feedbacks == old(db.feedbacks) && db.notifications == old(db.notifications)
  {
    if courseId !in db.courses {
      return NotFound;
    }
    var course := db.courses[courseId];
    var enrolled := IsEnrolled(db.enrollments, user.id, courseId);
    match CourseDetailAction(user.isStudent, enrolled, post) {
      case SubmitFeedback =>
        if FeedbackFormValid(post) {
          db.CreateFeedback(courseId, user.id, Strip(post.content), post.rating.value);
        }
      case Unenroll =>
        db.DeleteEnrollments(user.id, courseId);
      case EnrollInCourse =>
        var _ := db.CreateEnrollment(user.id, courseId);
        NotifyTeacherOnEnrollment(db, user, course);
      case NoAction =>
    }
    resp := Redirect(CourseDetailPage(courseId));
  }

  // ---------------------------------------------------------------------
  // Enrollment management by the course's teacher

  /** The outcome shared by the teacher-only handlers before they touch the enrollment. */
  datatype Guard = Proceed | Refuse(resp: Response)

  /** An unknown course is a 404, anyone but its teacher is sent back to it, and a missing enrollment is a 404. */
  function TeacherGuard(courses: map<CourseId, Course>, rows: seq<Enrollment>, user: User, courseId: CourseId, studentId: UserId): (g: Guard)
    ensures g == Proceed <==> courseId in courses && user.id == courses[courseId].teacher && IsEnrolled(rows, studentId, courseId)
    ensures courseId !in courses ==> g == Refuse(NotFound)
    ensures courseId in courses && user.id != courses[courseId].teacher ==> g == Refuse(Redirect(CourseDetailPage(courseId)))
    ensures courseId in courses && user.id == courses[courseId].teacher && !IsEnrolled(rows, studentId, courseId) ==> g == Refuse(NotFound)
  {
    if courseId !in courses then Refuse(NotFound)
    else if user.id != courses[courseId].teacher then Refuse(Redirect(CourseDetailPage(courseId)))
    else if !IsEnrolled(rows, studentId, courseId) then Refuse(NotFound)
    else Proceed
  }

  /** `remove_student`: the course's teacher deletes exactly that student's enrollment; every other row stays. */
  method RemoveStudent(db: Database, user: User, courseId: CourseId, studentId: UserId) returns (resp: Response)
    requires db.Valid()
    modifies db`enrollments
    ensures db.Valid()
    ensures TeacherGuard(db.courses, old(db.enrollments), user, courseId, studentId).Refuse? ==>
      resp == TeacherGuard(db.courses, old(db.enrollments), user, courseId, studentId).resp && db.enrollments == old(db.enrollments)
    ensures TeacherGuard(db.courses, old(db.enrollments), user, courseId, studentId) == Proceed ==>
      && resp == Redirect(CourseDetailPage(courseId))
      && db.enrollments == WithoutPair(old(db.enrollments), studentId, courseId)
      && |db.enrollments| == |old(db.enrollments)| - 1
      && !IsEnrolled(db.enrollments, studentId, courseId)
  {
    var guard := TeacherGuard(db.courses, db.enrollments, user, courseId, studentId);
    if guard.Refuse? {
      return guard.resp;
    }
    WithoutPairUnenrolls(db.enrollments, studentId, courseId);
    db.DeleteEnrollments(studentId, courseId);
    resp := Redirect(CourseDetailPage(courseId));
  }

  /** Shared body of `block_student` and `unblock_student`: the teacher sets the flag on that one enrollment. */
  method SetBlocked(db: Database, user: User, courseId: CourseId, studentId: UserId, blocked: bool) returns (resp: Response)
    requires db.Valid()
    modifies db`enrollments
    ensures db.Valid()
    ensures TeacherGuard(db.courses, old(db.enrollments), user, courseId, studentId).Refuse? ==>
      resp == TeacherGuard(db.courses, old(db.enrollments), user, courseId, studentId).resp && db.enrollments == old(db.enrollments)
    ensures TeacherGuard(db.courses, old(db.enrollments), user, courseId, studentId) == Proceed ==>
      resp == Redirect(CourseDetailPage(courseId)) && db.enrollments == WithBlocked(old(db.enrollments), studentId, courseId, blocked)
  {
    var guard := TeacherGuard(db.courses, db.enrollments, user, courseId, studentId);
    if guard.Refuse? {
      return guard.resp;
    }
    db.SaveBlocked(studentId, courseId, blocked);
    resp := Redirect(CourseDetailPage(courseId));
  }

  /** `block_student`. */
  method BlockStudent(db: Database, user: User, courseId: CourseId, studentId: UserId) returns (resp: Response)
    requires db.Valid()
    modifies db`enrollments
    ensures db.Valid()
    ensures TeacherGuard(db.courses, old(db.enrollments), user, courseId, studentId).Refuse? ==>
      resp == TeacherGuard(db.courses, old(db.enrollments), user, courseId, studentId).resp && db.enrollments == old(db.enrollments)
    ensures TeacherGuard(db.courses, old(db.enrollments), user, courseId, studentId) == Proceed ==>
      resp == Redirect(CourseDetailPage(courseId)) && db.enrollments == WithBlocked(old(db.enrollments), studentId, courseId, true)
  {
    resp := SetBlocked(db, user, courseId, studentId, true);
  }

  /** `unblock_student`. */
  method UnblockStudent(db: Database, user: User, courseId: CourseId, studentId: UserId) returns (resp: Response)
    requires db.Valid()
    modifies db`enrollments
    ensures db.Valid()
    ensures TeacherGuard(db.courses, old(db.enrollments), user, courseId, studentId).Refuse? ==>
      resp == TeacherGuard(db.courses, old(db.enrollments), user, courseId, studentId).resp && db.enrollments == old(db.enrollments)
    ensures TeacherGuard(db.courses, old(db.enrollments), user, courseId, studentId) == Proceed ==>
      resp == Redirect(CourseDetailPage(courseId)) && db.enrollments == WithBlocked(old(db.enrollments), studentId, courseId, false)
  {
    resp := SetBlocked(db, user, courseId, studentId, false);
  }

  /** Blocking and then unblocking a student leaves the enrollment table as it was before blocking, when the student was not blocked. */
  lemma {:induction false} UnblockUndoesBlock(rows: seq<Enrollment>, student: UserId, course: CourseId)
    requires forall i :: 0 <= i < |rows| && Enrolls(rows[i], student, course) ==> !rows[i].blocked
    ensures WithBlocked(WithBlocked(rows, student, course, true), student, course, false) == rows
  {
    var r := WithBlocked(WithBlocked(rows, student, course, true), student, course, false);
    forall i | 0 <= i < |rows| ensures r[i] == rows[i] {
      var b := WithBlocked(rows, student, course, true);
      if Enrolls(rows[i], student, course) {
        assert Enrolls(b[i], student, course);
      } else {
        assert !Enrolls(b[i], student, course);
      }
    }
  }

  // ---------------------------------------------------------------------
  // Course material

  /** The students enrolled in a course, in table order. */
  function StudentsOf(rows: seq<Enrollment>, course: CourseId): (r: seq<UserId>)
    ensures forall s :: s in r <==> IsEnrolled(rows, s, course)
    ensures |r| <= |rows|
  {
    if rows == [] then []
    else
      assert forall i :: 1 <= i < |rows| ==> rows[i] == rows[1..][i - 1];
      (if rows[0].course == course then [rows[0].student] else []) + StudentsOf(rows[1..], course)
  }

  /** Under the uniqueness constraint, no enrolled student is listed twice. */
  lemma {:induction false} StudentsOfDistinct(rows: seq<Enrollment>, course: CourseId)
    requires UniquePairs(rows)
    ensures Distinct(StudentsOf(rows, course))
  {
    if rows != [] {
      assert UniquePairs(rows[1..]) by {
        forall i, j | 0 <= i < j < |rows[1..]| ensures !Enrolls(rows[1..][j], rows[1..][i].student, rows[1..][i].course) {
          assert rows[1..][i] == rows[i + 1] && rows[1..][j] == rows[j + 1];
        }
      }
      StudentsOfDistinct(rows[1..], course);
      var rest := StudentsOf(rows[1..], course);
      if rows[0].course == course {
        forall k | 0 <= k < |rest| ensures rest[k] != rows[0].student {
          assert rest[k] in rest;
          var i :| 0 <= i < |rows[1..]| && Enrolls(rows[1..][i], rest[k], course);
          assert rows[i + 1] == rows[1..][i];
        }
      }
    }
  }

  /**
   * `add_material`: only a teacher may add material. A valid POST stores the
   * material and then notifies each student enrolled in the course, one
   * notification each, in enrollment order. A GET or an invalid form renders
   * the form again with nothing stored. An unknown course is a 404.
   */
  method AddMaterial(db: Database, user: User, courseId: CourseId, httpMethod: HttpMethod,
                     title: string, description: string, formValid: bool) returns (resp: Response)
    requires db.Valid()
    modifies db`materials, db`notifications
    ensures db.Valid()
    ensures courseId !in db.courses ==> resp == NotFound
    ensures courseId in db.courses && !user.isTeacher ==> resp == Redirect(CourseDetailPage(courseId))
    ensures courseId in db.courses && user.isTeacher && (httpMethod == Get || !formValid) ==> resp == Rendered
    ensures !(courseId in db.courses && user.isTeacher && httpMethod == Post && formValid) ==>
      db.materials == old(db.materials) && db.notifications == old(db.notifications)
    ensures courseId in db.courses && user.isTeacher && httpMethod == Post && formValid ==>
      && resp == Redirect(CourseDetailPage(courseId))
      && db.materials == old(db.materials) + [Material(title, description, courseId, db.clock)]
      && db.notifications == old(db.notifications) +
           Fanout(|old(db.notifications)|, StudentsOf(db.enrollments, courseId),
                  MaterialNotice(title, db.courses[courseId].title), db.clock)
  {
    if courseId !in db.courses {
      return NotFound;
    }
    var course := db.courses[courseId];
    if !user.isTeacher {
      return Redirect(CourseDetailPage(courseId));
    }
    if httpMethod == Get || !formValid {
      return Rendered;
    }
    var material := db.CreateMaterial(title, description, courseId);
    NotifyEnrolledStudents(db, StudentsOf(db.enrollments, courseId), course, material);
    resp := Redirect(CourseDetailPage(courseId));
  }

  /** The notification loop of `add_material`: one notice per enrolled student, in order, appended to the table. */
  method NotifyEnrolledStudents(db: Database, enrolled: seq<UserId>, course: Course, material: Material)
    requires db.Valid()
    modifies db`notifications
    ensures db.Valid()
    ensures db.notifications == old(db.notifications) +
      Fanout(|old(db.notifications)|, enrolled, MaterialNotice(material.title, course.title), db.clock)
  {
    var content := MaterialNotice(material.title, course.title);
    for k := 0 to |enrolled|
      invariant db.Valid()
      invariant db.notifications == old(db.notifications) + Fanout(|old(db.notifications)|, enrolled[..k], content, db.clock)
    {
      FanoutSnoc(|old(db.notifications)|, enrolled[..k], enrolled[k], content, db.clock);
      assert enrolled[..k + 1] == enrolled[..k] + [enrolled[k]];
      NotifyStudentOnNewMaterial(db, enrolled[k], course, material);
    }
    assert enrolled[..|enrolled|] == enrolled;
  }

  /** Each enrolled student receives exactly one notice about new material, and nobody else receives one. */
  lemma MaterialNoticeReachesEachStudentOnce(rows: seq<Enrollment>, course: CourseId, firstId: nat,
                                             content: string, now: Timestamp, u: UserId)
    requires UniquePairs(rows)
    ensures IsEnrolled(rows, u, course) ==>
      exists k :: 0 <= k < |StudentsOf(rows, course)| && Fanout(firstId, StudentsOf(rows, course), content, now)[k].user == Some(u)
    ensures forall k1, k2 ::
      (0 <= k1 < |StudentsOf(rows, course)| && 0 <= k2 < |StudentsOf(rows, course)| &&
       Fanout(firstId, StudentsOf(rows, course), content, now)[k1].user == Some(u) &&
       Fanout(firstId, StudentsOf(rows, course), content, now)[k2].user == Some(u))
      ==> k1 == k2
    ensures !IsEnrolled(rows, u, course) ==>
      forall k :: 0 <= k < |StudentsOf(rows, course)| ==> Fanout(firstId, StudentsOf(rows, course), content, now)[k].user != Some(u)
  {
    StudentsOfDistinct(rows, course);
    FanoutAddressesEachOnce(firstId, StudentsOf(rows, course), content, now, u);
  }
}
