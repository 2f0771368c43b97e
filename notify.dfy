/**
 * Notification helpers (core/utils.py): the content strings, and the rows
 * each helper adds to the notification table.
 */
module Notify {
  import opened Models

  const EnrolledText: string := " has enrolled in your course: "
  const MaterialPrefix: string := "New material '"
  const MaterialText: string := "' has been added to the course: "

  /** The text a teacher receives when a student enrolls. */
  function EnrollmentNotice(username: string, courseTitle: string): (r: string)
    ensures |r| == |username| + |EnrolledText| + |courseTitle| + 1
    ensures r[..|username|] == username
    ensures r[|username|..|username| + |EnrolledText|] == EnrolledText
    ensures r[|r| - |courseTitle| - 1..] == courseTitle + "."
  {
    username + EnrolledText + courseTitle + "."
  }

  /** The text a student receives when material is added to one of their courses; it carries both titles. */
  function MaterialNotice(materialTitle: string, courseTitle: string): (r: string)
    ensures |r| == |MaterialPrefix| + |materialTitle| + |MaterialText| + |courseTitle| + 1
    ensures r[..|MaterialPrefix| + |materialTitle|] == MaterialPrefix + materialTitle
    ensures r[|r| - |courseTitle| - 1..] == courseTitle + "."
  {
    MaterialPrefix + materialTitle + MaterialText + courseTitle + "."
  }

  /** User names may not contain spaces (the framework's user name validator admits word characters and `.@+-` only). */
  predicate NoSpace(s: string)
  {
    forall i :: 0 <= i < |s| ==> s[i] != ' '
  }

  /** The position of the first space of `s`, or `|s|` if there is none. */
  function FirstSpace(s: string): (k: nat)
    ensures k <= |s|
    ensures k < |s| ==> s[k] == ' '
    ensures NoSpace(s[..k])
  {
    if s == [] || s[0] == ' ' then 0
    else
      var k := 1 + FirstSpace(s[1..]);
      assert s[..k] == [s[0]] + s[1..][..k - 1];
      k
  }

  /** Reads the user name and course title back out of an enrollment notice. */
  function ParseEnrollmentNotice(n: string): Option<(string, string)>
  {
    var k := FirstSpace(n);
    var rest := n[k..];
    if |rest| > |EnrolledText| && rest[..|EnrolledText|] == EnrolledText && rest[|rest| - 1] == '.'
    then Some((n[..k], rest[|EnrolledText|..|rest| - 1]))
    else None
  }

  lemma {:induction false} FirstSpaceAfterName(name: string, rest: string)
    requires NoSpace(name) && rest != [] && rest[0] == ' '
    ensures FirstSpace(name + rest) == |name|
  {
    if name != [] {
      assert (name + rest)[1..] == name[1..] + rest;
      FirstSpaceAfterName(name[1..], rest);
    }
  }

  /** An enrollment notice names its student and course unambiguously: parsing it gives both back. */
  lemma EnrollmentNoticeRoundTrip(username: string, courseTitle: string)
    requires NoSpace(username)
    ensures ParseEnrollmentNotice(EnrollmentNotice(username, courseTitle)) == Some((username, courseTitle))
  {
    var n := EnrollmentNotice(username, courseTitle);
    assert n == username + (EnrolledText + courseTitle + ".");
    FirstSpaceAfterName(username, EnrolledText + courseTitle + ".");
    assert n[|username|..] == EnrolledText + courseTitle + ".";
  }

  /** Distinct students or courses give distinct enrollment notices. */
  lemma EnrollmentNoticeInjective(u1: string, t1: string, u2: string, t2: string)
    requires NoSpace(u1) && NoSpace(u2)
    requires EnrollmentNotice(u1, t1) == EnrollmentNotice(u2, t2)
    ensures u1 == u2 && t1 == t2
  {
    EnrollmentNoticeRoundTrip(u1, t1);
    EnrollmentNoticeRoundTrip(u2, t2);
  }

  /** Rows created one per recipient, in order, with consecutive keys starting at `firstId`. */
  function Fanout(firstId: nat, recipients: seq<UserId>, content: string, now: Timestamp): (r: seq<NotificationRow>)
    ensures |r| == |recipients|
    ensures forall k :: 0 <= k < |r| ==> r[k].id == firstId + k && r[k].user == Some(recipients[k])
    ensures forall k :: 0 <= k < |r| ==> r[k].content == content && r[k].createdAt == now && !r[k].read
  {
    seq(|recipients|, k requires 0 <= k < |recipients| => NotificationRow(firstId + k, Some(recipients[k]), content, now, false))
  }

  predicate Distinct(xs: seq<UserId>)
  {
    forall i, j :: 0 <= i < j < |xs| ==> xs[i] != xs[j]
  }

  /** Each recipient is addressed by exactly one row when the recipients are distinct, and nobody else is addressed. */
  lemma FanoutAddressesEachOnce(firstId: nat, recipients: seq<UserId>, content: string, now: Timestamp, u: UserId)
    requires Distinct(recipients)
    ensures u in recipients ==>
      exists k :: 0 <= k < |recipients| && Fanout(firstId, recipients, content, now)[k].user == Some(u)
    ensures forall k1, k2 ::
      (0 <= k1 < |recipients| && 0 <= k2 < |recipients| &&
       Fanout(firstId, recipients, content, now)[k1].user == Some(u) &&
       Fanout(firstId, recipients, content, now)[k2].user == Some(u))
      ==> k1 == k2
    ensures u !in recipients ==>
      forall k :: 0 <= k < |recipients| ==> Fanout(firstId, recipients, content, now)[k].user != Some(u)
  {
    var r := Fanout(firstId, recipients, content, now);
    if u in recipients {
      var k :| 0 <= k < |recipients| && recipients[k] == u;
      assert r[k].user == Some(u);
    }
  }

  /** Extending the recipients by one extends the rows by the matching row. */
  lemma FanoutSnoc(firstId: nat, recipients: seq<UserId>, u: UserId, content: string, now: Timestamp)
    ensures Fanout(firstId, recipients + [u], content, now)
         == Fanout(firstId, recipients, content, now) + [NotificationRow(firstId + |recipients|, Some(u), content, now, false)]
  {
  }

  /** The key of every student in the user table, in table order. */
  function StudentIds(users: seq<User>): (r: seq<UserId>)
    ensures forall id :: id in r <==> exists i :: 0 <= i < |users| && users[i].isStudent && users[i].id == id
  {
    if users == [] then []
    else
      assert forall i :: 1 <= i < |users| ==> users[i] == users[1..][i - 1];
      (if users[0].isStudent then [users[0].id] else []) + StudentIds(users[1..])
  }

  /** With unique keys in the user table, no student is listed twice. */
  lemma {:induction false} StudentIdsDistinct(users: seq<User>)
    requires UserIdsUnique(users)
    ensures Distinct(StudentIds(users))
  {
    if users != [] {
      StudentIdsDistinct(users[1..]);
      var rest := StudentIds(users[1..]);
      forall k | 0 <= k < |rest| ensures rest[k] != users[0].id {
        assert rest[k] in rest;
        var i :| 0 <= i < |users[1..]| && users[1..][i].isStudent && users[1..][i].id == rest[k];
        assert users[i + 1].id == rest[k];
      }
    }
  }

  /** Tells a course's teacher that a student enrolled. */
  method NotifyTeacherOnEnrollment(db: Database, student: User, course: Course)
    requires db.Valid()
    modifies db`notifications
    ensures db.Valid()
    ensures db.notifications == old(db.notifications) +
      [NotificationRow(|old(db.notifications)|, Some(course.teacher), EnrollmentNotice(student.username, course.title), db.clock, false)]
  {
    var content := EnrollmentNotice(student.username, course.title);
    var _ := db.CreateNotification(Some(course.teacher), content);
  }

  /** Tells one student that material was added to a course. */
  method NotifyStudentOnNewMaterial(db: Database, student: UserId, course: Course, material: Material)
    requires db.Valid()
    modifies db`notifications
    ensures db.Valid()
    ensures db.notifications == old(db.notifications) +
      [NotificationRow(|old(db.notifications)|, Some(student), MaterialNotice(material.title, course.title), db.clock, false)]
  {
    var content := MaterialNotice(material.title, course.title);
    var _ := db.CreateNotification(Some(student), content);
  }

  /** Sends the same message to every student, one row each, in user-table order; other rows are untouched. */
  method NotifyAllStudents(db: Database, message: string)
    requires db.Valid()
    modifies db`notifications
    ensures db.Valid()
    ensures db.notifications == old(db.notifications) + Fanout(|old(db.notifications)|, StudentIds(db.users), message, db.clock)
  {
    var students := StudentIds(db.users);
    var k := 0;
    while k < |students|
      invariant 0 <= k <= |students| && db.Valid()
      invariant db.notifications == old(db.notifications) + Fanout(|old(db.notifications)|, students[..k], message, db.clock)
    {
      FanoutSnoc(|old(db.notifications)|, students[..k], students[k], message, db.clock);
      assert students[..k + 1] == students[..k] + [students[k]];
      var _ := db.CreateNotification(Some(students[k]), message);
      k := k + 1;
    }
    assert students[..k] == students;
  }
}
