# E-learning chat and enrollment core, in Dafny

A model of the room-scoped websocket chat of a Django/Channels e-learning
application, together with the state rules around it: the chat-room
catalogue, enrollment bookkeeping, notification records and the custom form
validators.

- `seqs.dfy` (`Seqs`): sequence reversal, used for newest-first listings.
- `models.dfy` (`Models`): the record types, the table constraints
  (unique room names, one enrollment per student and course, notification
  keys in creation order) and a `Database` class whose fields are the tables.
  Each ORM write the application issues is a method that changes one table.
  `Notification` is the in-memory model instance, with `MarkAsRead` and
  `MarkAsUnread`.
- `chat.dfy` (`Chat`): the channel layer, modelled as a map from group to
  member channels plus a queue of events per channel; it refuses group names
  that break its naming rule. The `EchoConsumer` class covers connect (join,
  then replay the newest 20 messages of the room oldest first), receive
  (persist only for an authenticated sender, then broadcast), delivery of a
  queued event to `chat_message` (forward the three fields) and disconnect.
- `forms.dfy` (`Forms`): the custom validation hooks of the forms: role
  exclusivity, minimum feedback length, e-mail uniqueness.
- `notify.dfy` (`Notify`): the notification helpers and their content strings.
- `signals.dfy` (`Signals`): seeding of the default rooms after migration.
- `views.dfy` (`Views`): `chat_home`, `create_room`, `enroll`, the POST
  branches of `course_detail`, `remove_student`, `block_student`,
  `unblock_student` and `add_material`. Each is a method on the database
  returning where the user is sent: a redirect, the page itself, a 404, or a
  500 for an unhandled exception.
- `scenarios.dfy` (`Scenarios`): scenarios that mirror the application's
  tests, plus a few more through the clock, the group-name rule and the
  notification flag.

Time is the database's `clock` field, a natural number that never decreases.
Every stored timestamp is a reading of it, so storage order agrees with
timestamp order. This invariant is part of `Database.Valid`.

## Model

| member | source | states |
|---|---|---|
| Models.EnrolledOnce | core/views.py:283 | get-or-create of a (student, course) pair: afterwards the pair is enrolled; an existing row is kept as is, otherwise one new unblocked row is added; uniqueness is preserved |
| Models.EnrolledOnceIsSingle | core/models.py:87-88 | under the unique-together constraint the pair has exactly one row after get-or-create |
| Models.EnrolledOnceIdempotent | core/views.py:282-287 | enrolling twice leaves the table as enrolling once |
| Models.WithoutPair | core/views.py:251 | deleting a pair's rows keeps exactly the rows of other pairs and never grows the table |
| Models.WithoutAbsentPair | core/views.py:251 | deleting the rows of a pair that has none changes nothing |
| Models.WithoutPairUnenrolls | core/models.py:87-88 | with unique pairs, deletion removes exactly one row when the pair is enrolled and none otherwise; the pair is no longer enrolled and uniqueness still holds |
| Models.WithBlocked | core/views.py:602-604 | setting the blocked flag changes only the flag of the pair's row; every other row and column is unchanged; uniqueness is preserved |
| Models.WithRead | core/models.py:161-162 | writing `read` changes only that column of that row |
| Models.WithReadIdempotent | core/models.py:157-169 | writing the same read flag twice gives the same table as once |
| Models.ListedNewestFirstIsOrdered | core/models.py:148-149 | the default notification listing holds the same rows, in non-increasing creation time |
| Models.Database.GetOrCreateRoom | core/models.py:112 | room names form a set: get-or-create adds the name only if absent and reports whether it did |
| Models.Database.CreateMessage | core/models.py:119-126 | a new message is appended with its author, room and the current time; the time-order invariant is kept |
| Models.Database.GetOrCreateEnrollment | core/views.py:283 | the enrollment table becomes `EnrolledOnce` of the old one; `created` is true iff the pair was absent |
| Models.Database.CreateEnrollment | core/views.py:255 | a plain create: one new unblocked row when the pair is absent; the unique constraint refuses a second row |
| Models.Database.DeleteEnrollments | core/views.py:251 | the table becomes `WithoutPair` of the old one |
| Models.Database.SaveBlocked | core/views.py:603-604 | the table becomes `WithBlocked` of the old one |
| Models.Database.CreateNotification | core/models.py:137-146 | one unread row is appended, stamped now, with the next key; earlier rows are unchanged |
| Models.Database.SaveNotificationRead | core/models.py:162 | saving only `read` fails when the row is gone and otherwise writes that one column |
| Models.Database.CreateFeedback | core/views.py:244-247 | one feedback row for the course and student is appended |
| Models.Database.CreateMaterial | core/views.py:492-494 | one material row for the course is appended and returned |
| Models.Notification.MarkAsRead | core/models.py:157-162 | the instance becomes read and only the `read` column of its row is written |
| Models.Notification.MarkAsUnread | core/models.py:164-169 | the instance becomes unread and only the `read` column of its row is written |
| Chat.SenderName | core/consumers.py:81-82 | a live message is signed with the user name of an authenticated user and with `Anonymous` otherwise |
| Chat.GroupName | core/consumers.py:24 | the group name is `chat_` followed by the room name verbatim |
| Chat.GroupNameInjective | core/consumers.py:23-24 | the group key is `chat_` plus the room name; two rooms share a group iff their names are equal |
| Chat.EventFrame | core/consumers.py:116-127 | the frame for a group event carries its message, username and timestamp unchanged |
| Chat.StoredFrame | core/consumers.py:50-54 | a replay frame carries the stored text, the author's user name and the stored time |
| Chat.Frames | core/consumers.py:49-54 | the replay frames are one per message, in the history's order |
| Chat.RoomMessages | core/consumers.py:45 | the room's messages are exactly the stored messages whose room is that room |
| Chat.RoomMessagesCounts | core/consumers.py:45 | each message of the room is selected as many times as it is stored, and no message of another room is selected |
| Chat.NewestFirst | core/consumers.py:44-46 | the newest-first query returns at most 20 messages, all stored and all of that room |
| Chat.Recent | core/consumers.py:44-49 | the replay window holds min(20, N) messages, N being the room's message count |
| Chat.NewestFirstReversesRecent | core/consumers.py:44-49 | reversing the newest-first query capped at 20 gives exactly the oldest-first window |
| Chat.RoomMessagesInTimeOrder | core/consumers.py:45 | the room's messages inherit the store's time order |
| Chat.RecentIsNewestOfRoom | core/consumers.py:44-49 | the window holds only that room's messages, oldest first, and no message of the room left out is newer than any message in the window |
| Chat.Persisted | core/consumers.py:91-98 | an authenticated message is appended to the table with its author, room, text and time; an anonymous one leaves the table as it was; time order is kept |
| Chat.ReplayAfterSend | core/consumers.py:91-98 | after a live message, a later join of the same room replays it as the newest entry iff the sender was authenticated; other rooms' replays are unchanged |
| Chat.Enqueued | core/consumers.py:101-109 | a group send appends the event to the queue of every member and to no other queue |
| Chat.ValidRoomGroupName | core/consumers.py:24-32 | a room's group name is accepted by the layer iff the room name has fewer than 95 characters, all ASCII letters, digits, `-`, `_` or `.` |
| Chat.ChannelLayer.GroupAdd | core/consumers.py:29-32 | an invalid group name is refused with nothing changed; otherwise the channel joins the group and all other groups are unchanged |
| Chat.ChannelLayer.GroupDiscard | core/consumers.py:62-65 | an invalid group name is refused with nothing changed; otherwise exactly this channel leaves the group; other members and groups are unchanged |
| Chat.ChannelLayer.GroupSend | core/consumers.py:101-109 | an invalid group name is refused with nothing queued; otherwise every current member's queue gains the event |
| Chat.ChannelLayer.Receive | core/consumers.py:111-116 | the layer hands a channel the oldest event queued for it and removes it from that queue only |
| Chat.EchoConsumer.constructor | core/consumers.py:12-15 | a new connection has no room, no group name and has sent nothing |
| Chat.EchoConsumer.Connect | core/consumers.py:17-54 | the connection records the room and group name; if the layer refuses the group name it fails unaccepted with nothing sent or joined; otherwise it is a member of the group, is accepted, and has sent exactly the frames of the room's replay window, oldest first |
| Chat.EchoConsumer.SendOldestFirst | core/consumers.py:49-54 | iterating the newest-first history in reverse sends its frames oldest first |
| Chat.EchoConsumer.Disconnect | core/consumers.py:56-65 | exactly this connection leaves its group; with no group name, or one the layer refuses, it fails and nothing changes |
| Chat.EchoConsumer.Receive | core/consumers.py:69-109 | empty text is ignored; an unparsable payload is an error; an authenticated send to a room without a row fails; in all three cases nothing is stored or queued. Otherwise the store gains one message iff the sender is authenticated, and every group member, the sender included, is queued the same message, name and time |
| Chat.EchoConsumer.Deliver | core/consumers.py:111-127 | the oldest event queued for this connection is taken off its queue and written to its socket as a frame with the same three fields |
| Chat.EchoConsumer.ChatMessage | core/consumers.py:111-127 | the member writes exactly the event's three fields to its socket |
| Forms.CleanRegistration | core/forms.py:21-34 | registration is accepted iff exactly one role is chosen, and then returned unchanged; both roles and no role get distinct errors |
| Forms.CleanContent | core/forms.py:64-71 | feedback is accepted, unchanged, iff it has at least 10 characters |
| Forms.EmailTakenByOther | core/forms.py:91 | true iff some user other than the form's instance has the address |
| Forms.CleanEmail | core/forms.py:86-93 | an address is refused iff a user with a different key already has it; otherwise it is returned unchanged |
| Forms.KeepingOwnEmailIsAccepted | core/forms.py:86-93 | with unique addresses, re-submitting one's own address is accepted |
| Forms.SharedBlankEmailRefused | core/forms.py:91-92 | a user whose blank address another user shares is refused when re-submitting it |
| Notify.EnrollmentNotice | core/utils.py:7 | the enrollment notice starts with the student's user name, then the enrollment text, and ends with the course title and a full stop |
| Notify.MaterialNotice | core/utils.py:13 | the material notice starts with the quoted material title and ends with the course title and a full stop |
| Notify.EnrollmentNoticeRoundTrip | core/utils.py:7 | the enrollment notice names its student and course unambiguously: both can be read back from it |
| Notify.EnrollmentNoticeInjective | core/utils.py:7 | different students or courses give different enrollment notices |
| Notify.Fanout | core/utils.py:28-29 | one unread row per recipient, in order, with consecutive keys, all carrying the same content |
| Notify.FanoutAddressesEachOnce | core/utils.py:25-29 | with distinct recipients each recipient is addressed by exactly one row and nobody else by any |
| Notify.StudentIds | core/utils.py:25 | the listed keys are exactly those of users with the student flag |
| Notify.StudentIdsDistinct | core/utils.py:25-29 | with unique user keys no student is listed twice |
| Notify.NotifyTeacherOnEnrollment | core/utils.py:5-8 | exactly one notification, to the course's teacher, with the enrollment text |
| Notify.NotifyStudentOnNewMaterial | core/utils.py:11-14 | exactly one notification, to that student, with the material text |
| Notify.NotifyAllStudents | core/utils.py:17-29 | one notification per student with the message unchanged; existing rows are untouched |
| Signals.SeededRooms | core/signals.py:23-29 | for the core application the rooms become the old rooms plus the three defaults; for any other sender nothing changes |
| Signals.SeedingIsIdempotent | core/signals.py:28-29 | seeding twice equals seeding once, and existing rooms are kept |
| Signals.CreateDefaultChatrooms | core/signals.py:9-29 | the handler's get-or-create loop leaves the room table equal to `SeededRooms` of the old one |
| Views.ChatHome | core/views.py:396-397 | the two listings are disjoint, together cover every room, and the default listing holds exactly the existing default rooms |
| Views.TrimStart | core/views.py:410 | removing leading whitespace leaves a suffix that is empty or starts with a non-space |
| Views.TrimStartDropsOnlySpace | core/views.py:410 | everything removed at the start is whitespace |
| Views.TrimEnd | core/views.py:410 | removing trailing whitespace leaves a prefix that is empty or ends with a non-space |
| Views.TrimEndDropsOnlySpace | core/views.py:410 | everything removed at the end is whitespace |
| Views.Strip | core/views.py:410 | the stripped name neither starts nor ends with whitespace |
| Views.StripEmptyIffBlank | core/views.py:410-411 | the stripped name is empty iff the submitted name is all whitespace |
| Views.StripIdempotent | core/views.py:410 | stripping twice equals stripping once |
| Views.TrimStartAppend | core/views.py:410 | trimming the front of a concatenation reaches the second part only when the first is all whitespace |
| Views.TrimStartOfSpace | core/views.py:410 | an all-whitespace string trims to nothing |
| Views.TrimEndOfPadded | core/views.py:410 | trailing whitespace appended to a string is trimmed with its own |
| Views.StripPadded | core/views.py:410 | whitespace added at either end does not change what a string strips to |
| Views.CreateRoom | core/views.py:404-418 | a POST with a non-blank name adds the stripped name to the rooms and joins that room, unless the name holds a `/`, which the room route cannot carry: then the room is stored and the answer is a 500; a blank name or a GET lands on the chat home with rooms unchanged; a POST without the field is a 500 with rooms unchanged |
| Views.Enroll | core/views.py:276-291 | an unknown course is a 404; a student ends up with exactly one enrollment for the pair; a non-student changes nothing |
| Views.CourseDetailAction | core/views.py:239-260 | feedback only from enrolled students, unenroll only when enrolled, enroll only when not enrolled; non-students do nothing |
| Views.FeedbackFormValid | core/views.py:242-243 | the feedback form is valid iff the rating parses to an integer in the column's 32-bit range and the content, stripped of surrounding whitespace, has no NUL and at least 10 characters |
| Views.FeedbackValidityIgnoresPadding | core/forms.py:64-71 | surrounding whitespace never changes whether feedback is accepted |
| Views.PaddedShortFeedbackRefused | core/forms.py:68-70 | five letters padded with spaces to ten characters are refused |
| Views.CourseDetailPost | core/views.py:222-260 | an unknown course is a 404; otherwise the chosen action alone changes its table (a feedback row holding the stripped content if the form is valid, the pair's rows deleted, or one new row plus one notice to the teacher) and every other request changes nothing |
| Views.TeacherGuard | core/views.py:578-584 | the teacher-only handlers proceed iff the course exists, the user is its teacher and the enrollment exists; otherwise 404, redirect, 404 in that order |
| Views.RemoveStudent | core/views.py:574-587 | only the course's teacher can act; exactly that student's enrollment is deleted and every other row stays |
| Views.SetBlocked | core/views.py:596-606 | only the course's teacher can act; the enrollment table becomes `WithBlocked` of the old one |
| Views.BlockStudent | core/views.py:592-606 | only the course's teacher can act; the student's enrollment becomes blocked and nothing else changes |
| Views.UnblockStudent | core/views.py:611-625 | only the course's teacher can act; the student's enrollment becomes unblocked and nothing else changes |
| Views.UnblockUndoesBlock | core/views.py:592-625 | blocking then unblocking a student who was not blocked restores the enrollment table |
| Views.StudentsOf | core/views.py:497 | the listed students are exactly those enrolled in the course |
| Views.StudentsOfDistinct | core/views.py:497-500 | under the unique-together constraint no student is listed twice |
| Views.AddMaterial | core/views.py:480-507 | non-teachers are redirected with no change; a GET or invalid form changes nothing; a valid POST stores one material and appends one notice per enrolled student |
| Views.NotifyEnrolledStudents | core/views.py:497-500 | the notification loop appends one material notice per listed student, in order |
| Views.MaterialNoticeReachesEachStudentOnce | core/views.py:497-500 | each enrolled student receives exactly one material notice and no one else receives any |
| Scenarios.AnonymousEcho | core/tests.py:12-33 | a connection with no user in `sample_room` that sends `Hello` receives `Hello` back, signed as anonymous, and nothing is stored |
| Scenarios.ReplayToLaterMember | core/consumers.py:44-54 | a message a signed-in user sent in `general` is replayed, with its author's name, to a connection that joins later |
| Scenarios.ReplayInTimeOrder | core/consumers.py:44-54 | two messages sent by different users at different times are replayed to a later member oldest first |
| Scenarios.RoomWithSpaceRefused | core/consumers.py:24-37 | a room name with a space gives a group name the layer refuses, and the connection is never accepted |
| Scenarios.ReadEnrollmentNotice | core/models.py:157-162 | a stored notification loaded and marked as read is saved as read |
| Scenarios.StudentEnrolls | core/tests.py:93-108 | a student posting to a course's enroll address is enrolled and redirected to the course page |

## Left out

- The Channels runtime is not modelled: asynchronous scheduling, several connections running at once, and the race between joining a group and reading the history. Operations run one after another. Delivery is a per-channel queue; `Chat.EchoConsumer.Deliver` takes the oldest event off it and hands it to `ChatMessage`, one event per call, whenever the caller chooses.
- `print` debug output is not modelled.
- JSON decoding is abstracted. `Inbound.message` is the `"message"` member the parser yields, or `None` when the payload is not JSON or lacks the member. The source raises in that case; the model returns `ParseError` with nothing stored or queued. A non-string `"message"` value is not modelled.
- Binary frames (`bytes_data`) carry no text, so they are the ignored case.
- An authenticated send to a room with no `ChatRoom` row raises in the source and the connection closes. The model returns `RoomMissing` and changes nothing. The connection's own state is not torn down.
- `Chat.EchoConsumer.Connect`: the layer's group-name rule is modelled as its documented form: fewer than 100 characters, all ASCII letters, digits, `-`, `_` or `.`. The pattern the layer uses also lets through other Unicode decimal digits and one trailing newline; those are not modelled. A refused connection's own state is not torn down, and the layer's check of channel names is not modelled since channel names come from the layer itself.
- `Chat.EchoConsumer.Disconnect`: when the connection never obtained a group name, the source passes `None` to the layer, which raises. The model reports failure and changes nothing.
- Timestamps are opaque naturals. `strftime` formatting is not modelled.
- `Chat.EchoConsumer.Receive`: the source reads the clock twice, once for the broadcast text and once for the stored row. The model uses one reading for both, so it does not capture the two values differing.
- `Chat.RecentIsNewestOfRoom`: equal timestamps have no defined order in the database. The model breaks ties by storage order.
- Replay frames carry the author's user name as it was when the message was stored. The source reads the user's current name, so a later rename is not reflected in the model.
- Room deletion and cascading deletes of users, rooms, courses and notifications are not modelled. Tables only grow, except the enrollment deletions the views perform.
- Template rendering, the `messages` framework and login/permission decorators are not modelled. Every view acts for an authenticated user. The GET branch of `course_detail` only renders and is not modelled.
- `Views.AddMaterial`: the material form's validity is a parameter, and file uploads are not modelled.
- `Views.FeedbackFormValid`: the rating is a parsed integer or `None`. The 1 to 5 widget limits are not enforced by the source on the server, so the model does not enforce them either. The rating range is the signed 32-bit range that Django's base database backend reports for an integer column; the backend is not part of this model, and one that reports a wider range accepts more.
- `Views.CreateRoom`: the 255-character limit on room names is not modelled. A name that is stored but cannot be routed stays in the table.
- `Forms.CleanEmail`: addresses compare as exact strings. Collation-dependent case folding in the database is not modelled. The framework's standard field validation (password match, user-name syntax) is outside the custom hooks and is not modelled.
- `Forms.KeepingOwnEmailIsAccepted`: its uniqueness precondition is not an invariant of the source. Registration does not check addresses and the address is optional, so several users can share one, the blank address in particular. Such a user is then refused when re-submitting their own address, as `Forms.SharedBlankEmailRefused` shows.
- `Notify.EnrollmentNoticeRoundTrip` assumes user names without spaces, as the framework's user-name validator guarantees.
- Primary keys are unbounded naturals. Notification keys are numbered 0, 1, 2, … in creation order, which matches an auto-increment column with no deletions.
- Not part of this model:
  - the other views (`HomeView` search, `search_users`, `teacher_courses`, profile editing, feedback and notification listings, `mark_notification_read`, course creation and deletion, material editing);
  - `core/serializers.py`, `core/urls.py`, `core/admin.py`, `core/templatetags/custom_filters.py` and `core/context_processors.py`.
  These are read-only queries or declarative configuration.
