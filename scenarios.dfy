/**
 * Scenarios that mirror the application's own tests
 * (core/tests.py): a websocket echo in a room, a history replay to a later
 * member of a room, and a student enrolling through the view; and a few more
 * runs through the clock, the group-name check and the notification flag.
 */
module Scenarios {
  import opened Models
  import opened Chat
  import opened Signals
  import opened Views

  /** The rooms these scenarios join have group names the layer accepts. */
  lemma RoomNamesOfScenarios()
    ensures ValidGroupName(GroupName("sample_room")) && ValidGroupName(GroupName("general"))
  {
    ValidRoomGroupName("sample_room");
    ValidRoomGroupName("general");
  }

  /** A connection with no user in its scope joins a room of an empty database. */
  method JoinEmptyRoom(room: string) returns (db: Database, layer: ChannelLayer, conn: EchoConsumer)
    requires ValidGroupName(GroupName(room))
    ensures fresh(db) && fresh(layer) && fresh(conn)
    ensures db.Valid() && db.messages == [] && db.clock == 0
    ensures conn.Joined() && conn.roomName == Some(room) && conn.roomGroupName == Some(GroupName(room))
    ensures conn.scopeUser == NoUser && conn.sent == []
    ensures conn.channelName in layer.Members(GroupName(room)) && layer.inbox == map[]
  {
    db := new Database([], map[]);
    layer := new ChannelLayer();
    conn := new EchoConsumer(1, NoUser);
    var _ := conn.Connect(room, layer, db);
  }

  /**
   * A connection with no user in its scope joins `sample_room`, sends
   * `{"message": "Hello"}`, and gets its own message back, signed as
   * anonymous; nothing is stored.
   */
  method AnonymousEcho() returns (received: seq<Frame>, stored: seq<ChatMessage>)
    ensures received == [Frame("Hello", AnonymousName, 0)]
    ensures stored == []
  {
    RoomNamesOfScenarios();
    var db, layer, conn := JoinEmptyRoom("sample_room");
    var _ := conn.Receive(Inbound("{\"message\": \"Hello\"}", Some("Hello")), layer, db);
    assert PendingFor(layer.inbox, conn.channelName) == [Event("Hello", AnonymousName, 0)];
    conn.Deliver(layer);
    assert PendingFor(layer.inbox, conn.channelName) == [];
    received, stored := conn.sent, db.messages;
  }

  /** A fresh database after the core application's migration: no messages yet, and the default rooms exist. */
  method SeededDatabase(users: seq<User>) returns (db: Database)
    requires UserIdsUnique(users)
    ensures fresh(db) && db.Valid()
    ensures db.users == users && db.messages == [] && db.clock == 0
    ensures "general" in db.rooms && "math" in db.rooms && "science" in db.rooms
  {
    db := new Database(users, map[]);
    CreateDefaultChatrooms(db, CoreApp);
    assert DefaultRoomNames[0] == "general" && DefaultRoomNames[1] == "math" && DefaultRoomNames[2] == "science";
  }

  /**
   * After migration seeds the default rooms, a signed-in user joins
   * `general` and says "hi"; the message is stored with its author.
   */
  method SayHiInGeneral(alice: User) returns (db: Database, layer: ChannelLayer)
    ensures fresh(db) && fresh(layer) && db.Valid()
    ensures db.messages == [ChatMessage(alice, Some("general"), "hi", 0)]
  {
    db := SeededDatabase([alice]);
    layer := new ChannelLayer();
    SpeakInGeneral(db, layer, 1, alice, "hi");
  }

  /** A second connection joining `general` after that is replayed the message with its author's name. */
  method ReplayToLaterMember() returns (replayed: seq<Frame>)
    ensures replayed == [Frame("hi", "alice", 0)]
  {
    var alice := User(1, "alice", "alice@example.org", true, false);
    var db, layer := SayHiInGeneral(alice);
    SingleMessageReplay(ChatMessage(alice, Some("general"), "hi", 0), "general");
    RoomNamesOfScenarios();
    var second := new EchoConsumer(2, AnonymousUser);
    var _ := second.Connect("general", layer, db);
    replayed := second.sent;
  }

  /** A room whose only stored message is `m` replays exactly that message. */
  lemma SingleMessageReplay(m: ChatMessage, room: string)
    requires m.room == Some(room)
    ensures Frames(Recent([m], room, HistoryLimit)) == [StoredFrame(m)]
  {
    assert RoomMessages([m], room) == [m] by {
      assert [m][..0] == [];
    }
    assert Recent([m], room, HistoryLimit) == [m];
    assert Frames([m])[0] == StoredFrame(m);
  }

  /**
   * Two signed-in users speak in `general` at different times, the clock
   * moving on between them; the messages are stored in that order.
   */
  method TwoSpeakersInGeneral(alice: User, bob: User) returns (db: Database)
    requires alice.id != bob.id
    ensures fresh(db) && db.Valid()
    ensures db.messages == [ChatMessage(alice, Some("general"), "first", 0), ChatMessage(bob, Some("general"), "second", 5)]
  {
    db := SeededDatabase([alice, bob]);
    var layer := new ChannelLayer();
    SpeakInGeneral(db, layer, 1, alice, "first");
    db.Tick(5);
    SpeakInGeneral(db, layer, 2, bob, "second");
  }

  /** A signed-in user joins `general` on a new connection and says `text`, which is stored at the current time. */
  method SpeakInGeneral(db: Database, layer: ChannelLayer, channel: ConnId, user: User, text: string)
    requires db.Valid() && "general" in db.rooms
    modifies db`messages, layer`groups, layer`inbox
    ensures db.Valid()
    ensures db.messages == old(db.messages) + [ChatMessage(user, Some("general"), text, db.clock)]
  {
    RoomNamesOfScenarios();
    var conn := new EchoConsumer(channel, SignedIn(user));
    var _ := conn.Connect("general", layer, db);
    var _ := conn.Receive(Inbound("{\"message\": \"" + text + "\"}", Some(text)), layer, db);
  }

  /** A later member of `general` is replayed both messages, the older one first. */
  method ReplayInTimeOrder() returns (replayed: seq<Frame>)
    ensures replayed == [Frame("first", "alice", 0), Frame("second", "bob", 5)]
  {
    var alice := User(1, "alice", "alice@example.org", true, false);
    var bob := User(2, "bob", "bob@example.org", true, false);
    var db := TwoSpeakersInGeneral(alice, bob);
    TwoMessageReplay(ChatMessage(alice, Some("general"), "first", 0), ChatMessage(bob, Some("general"), "second", 5), "general");
    var layer := new ChannelLayer();
    RoomNamesOfScenarios();
    var later := new EchoConsumer(3, AnonymousUser);
    var _ := later.Connect("general", layer, db);
    replayed := later.sent;
  }

  /** A room holding two stored messages replays both, in storage order. */
  lemma TwoMessageReplay(m1: ChatMessage, m2: ChatMessage, room: string)
    requires m1.room == Some(room) && m2.room == Some(room)
    ensures Frames(Recent([m1, m2], room, HistoryLimit)) == [StoredFrame(m1), StoredFrame(m2)]
  {
    assert RoomMessages([m1], room) == [m1] by {
      assert [m1][..0] == [];
    }
    assert RoomMessages([m1, m2], room) == [m1, m2] by {
      assert [m1, m2][..1] == [m1];
    }
    assert Recent([m1, m2], room, HistoryLimit) == [m1, m2];
  }

  /** A room whose name has a space in it cannot be joined: the layer refuses its group name and the connection is never accepted. */
  method RoomWithSpaceRefused() returns (ok: bool, accepted: bool)
    ensures !ok && !accepted
  {
    var db := new Database([], map[]);
    var layer := new ChannelLayer();
    var conn := new EchoConsumer(1, NoUser);
    var g := GroupName("my room");
    assert g[|GroupPrefix| + 2] == ' ' && !IsGroupNameChar(' ');
    ok := conn.Connect("my room", layer, db);
    accepted := conn.accepted;
  }

  /** A teacher's enrollment notice, loaded and marked as read, is saved as read. */
  method ReadEnrollmentNotice() returns (saved: bool, read: bool)
    ensures saved && read
  {
    var db := new Database([], map[]);
    var id := db.CreateNotification(Some(1), "student2 has enrolled in your course: Sample Course.");
    var n := new Notification.Load(db.notifications[id]);
    saved := n.MarkAsRead(db);
    read := db.notifications[id].read;
  }

  /** A student who posts to a course's enroll address is enrolled in it and sent to the course page. */
  method StudentEnrolls() returns (resp: Response, enrolled: bool)
    ensures resp == Redirect(CourseDetailPage(7))
    ensures enrolled
  {
    var teacher := User(1, "teacher1", "", false, true);
    var student := User(2, "student2", "", true, false);
    var db := new Database([teacher, student], map[7 := Course("Sample Course", 1)]);
    resp := Enroll(db, student, 7);
    enrolled := IsEnrolled(db.enrollments, 2, 7);
  }
}
