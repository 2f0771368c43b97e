/**
 * The room-scoped chat session (core/consumers.py, `EchoConsumer`).
 *
 * The channel layer is an explicit object: a map from group name to the set
 * of member channels, and, per channel, the queue of events sent to it. The
 * message table is `Models.Database.messages`. Everything runs sequentially.
 */
module Chat {
  import opened Models
  import opened Seqs

  /** A connection's channel name. */
  type ConnId = nat

  /** How many stored messages a joining connection is sent. */
  const HistoryLimit: nat := 20

  const AnonymousName: string := "Anonymous"

  const GroupPrefix: string := "chat_"

  function Min(a: nat, b: nat): nat
  {
    if a <= b then a else b
  }

  /** What the connection scope says about the user: no user at all, Django's anonymous user, or a signed-in user. */
  datatype ScopeUser = NoUser | AnonymousUser | SignedIn(user: User)

  predicate IsAuthenticated(u: ScopeUser)
  {
    u.SignedIn?
  }

  /** The name shown next to a live message. */
  function SenderName(u: ScopeUser): (name: string)
    ensures IsAuthenticated(u) ==> name == u.user.username
    ensures !IsAuthenticated(u) ==> name == AnonymousName
  {
    if IsAuthenticated(u) then u.user.username else AnonymousName
  }

  /** The broadcast group of a room: the prefix followed by the route's room name, verbatim. */
  function GroupName(room: string): (g: string)
    ensures |g| == |GroupPrefix| + |room|
    ensures g[..|GroupPrefix|] == GroupPrefix && g[|GroupPrefix|..] == room
  {
    GroupPrefix + room
  }

  /** Two connections share a group exactly when their room names are equal. */
  lemma GroupNameInjective(a: string, b: string)
    ensures GroupName(a) == GroupName(b) <==> a == b
  {
    if GroupName(a) == GroupName(b) {
      assert a == GroupName(a)[|GroupPrefix|..];
      assert b == GroupName(b)[|GroupPrefix|..];
    }
  }

  /** The group event of a live message (its handler type is `chat_message`). */
  datatype Event = Event(message: string, username: string, timestamp: Timestamp)

  /** A JSON text frame written to a connection's socket. */
  datatype Frame = Frame(message: string, username: string, timestamp: Timestamp)

  /** An inbound text frame: its raw text (empty when absent) and the `"message"` member that parsing it yields, if any. */
  datatype Inbound = Inbound(textData: string, message: Option<string>)

  datatype ReceiveOutcome =
    | Ignored              // no text in the frame
    | ParseError           // not JSON, or no "message" member
    | RoomMissing          // an authenticated sender's room has no row
    | Broadcast(event: Event)

  /** The frame that replays a stored message. */
  function StoredFrame(m: ChatMessage): (f: Frame)
    ensures f.message == m.text && f.username == m.author.username && f.timestamp == m.timestamp
  {
    Frame(m.text, m.author.username, m.timestamp)
  }

  /** The frame a member writes for a group event: the three fields, forwarded unchanged. */
  function EventFrame(e: Event): (f: Frame)
    ensures f.message == e.message && f.username == e.username && f.timestamp == e.timestamp
  {
    Frame(e.message, e.username, e.timestamp)
  }

  /** The replay frames of a history, in the history's order. */
  function Frames(h: seq<ChatMessage>): (r: seq<Frame>)
    ensures |r| == |h|
    ensures forall i :: 0 <= i < |h| ==> r[i] == StoredFrame(h[i])
  {
    seq(|h|, i requires 0 <= i < |h| => StoredFrame(h[i]))
  }

  // ---------------------------------------------------------------------
  // History

  /** The messages stored for a room, in storage order. */
  function RoomMessages(ms: seq<ChatMessage>, room: string): (r: seq<ChatMessage>)
    ensures |r| <= |ms|
    ensures forall m :: m in r <==> m in ms && m.room == Some(room)
  {
    if ms == [] then []
    else
      var init := RoomMessages(ms[..|ms| - 1], room);
      assert ms == ms[..|ms| - 1] + [ms[|ms| - 1]];
      if ms[|ms| - 1].room == Some(room) then init + [ms[|ms| - 1]] else init
  }

  /** Each message of the room is selected as often as it is stored; no other message is. */
  lemma {:induction false} RoomMessagesCounts(ms: seq<ChatMessage>, room: string)
    ensures forall m :: multiset(RoomMessages(ms, room))[m] == if m.room == Some(room) then multiset(ms)[m] else 0
  {
    if ms != [] {
      var init, last := ms[..|ms| - 1], ms[|ms| - 1];
      assert ms == init + [last];
      RoomMessagesCounts(init, room);
    }
  }

  /** The history window: the newest `limit` messages of the room, oldest first. */
  function Recent(ms: seq<ChatMessage>, room: string, limit: nat): (r: seq<ChatMessage>)
    ensures |r| == Min(limit, |RoomMessages(ms, room)|)
  {
    var all := RoomMessages(ms, room);
    all[|all| - Min(limit, |all|)..]
  }

  /**
   * The history query as the consumer issues it: the room's messages, newest
   * first, at most `limit` of them. Walks the table from its newest end.
   */
  function NewestFirst(ms: seq<ChatMessage>, room: string, limit: nat): (r: seq<ChatMessage>)
    ensures |r| <= limit && |r| <= |ms|
    ensures forall m :: m in r ==> m in ms && m.room == Some(room)
    decreases |ms|
  {
    if ms == [] || limit == 0 then []
    else if ms[|ms| - 1].room == Some(room) then [ms[|ms| - 1]] + NewestFirst(ms[..|ms| - 1], room, limit - 1)
    else NewestFirst(ms[..|ms| - 1], room, limit)
  }

  /** Reversing the newest-first query gives exactly the oldest-first history window. */
  lemma {:induction false} NewestFirstReversesRecent(ms: seq<ChatMessage>, room: string, limit: nat)
    ensures NewestFirst(ms, room, limit) == Reverse(Recent(ms, room, limit))
  {
    if ms == [] || limit == 0 {
    } else {
      var init, last := ms[..|ms| - 1], ms[|ms| - 1];
      assert ms == init + [last];
      NewestFirstReversesRecent(init, room, if last.room == Some(room) then limit - 1 else limit);
      if last.room == Some(room) {
        var all := RoomMessages(init, room);
        assert RoomMessages(ms, room) == all + [last];
        WindowSnoc(all, last, limit);
        ReverseSnoc(Recent(init, room, limit - 1), last);
      } else {
        assert RoomMessages(ms, room) == RoomMessages(init, room);
      }
    }
  }

  /** Selecting a room keeps storage order, hence time order. */
  lemma {:induction false} RoomMessagesInTimeOrder(ms: seq<ChatMessage>, room: string)
    requires MessagesInTimeOrder(ms)
    ensures MessagesInTimeOrder(RoomMessages(ms, room))
  {
    if ms != [] {
      var init, last := ms[..|ms| - 1], ms[|ms| - 1];
      RoomMessagesInTimeOrder(init, room);
      var prev := RoomMessages(init, room);
      forall k | 0 <= k < |prev| ensures prev[k].timestamp <= last.timestamp {
        assert prev[k] in init;
      }
    }
  }

  /**
   * The history window holds only the room's messages, oldest first, and no
   * message of the room left out of it is newer than any message in it.
   */
  lemma RecentIsNewestOfRoom(ms: seq<ChatMessage>, room: string, limit: nat)
    requires MessagesInTimeOrder(ms)
    ensures forall m :: m in Recent(ms, room, limit) ==> m in ms && m.room == Some(room)
    ensures MessagesInTimeOrder(Recent(ms, room, limit))
    ensures forall m, i :: m in ms && m.room == Some(room) && m !in Recent(ms, room, limit) && 0 <= i < |Recent(ms, room, limit)|
              ==> m.timestamp <= Recent(ms, room, limit)[i].timestamp
  {
    var all := RoomMessages(ms, room);
    var start := |all| - Min(limit, |all|);
    var r := Recent(ms, room, limit);
    RoomMessagesInTimeOrder(ms, room);
    assert r == all[start..];
    forall m | m in r ensures m in ms && m.room == Some(room) {
      assert m in all;
    }
    assert forall j :: start <= j < |all| ==> all[j] == r[j - start];
    forall m, i | m in ms && m.room == Some(room) && m !in r && 0 <= i < |r|
      ensures m.timestamp <= r[i].timestamp
    {
      var k :| 0 <= k < |all| && all[k] == m;
      assert k < start;
      assert r[i] == all[start + i];
    }
  }

  /** The newest `limit` elements after appending `m` are the newest `limit - 1` before it, then `m`. */
  lemma WindowSnoc(all: seq<ChatMessage>, m: ChatMessage, limit: nat)
    requires limit > 0
    ensures (all + [m])[|all| + 1 - Min(limit, |all| + 1)..] == all[|all| - Min(limit - 1, |all|)..] + [m]
  {
    var start := |all| - Min(limit - 1, |all|);
    assert |all| + 1 - Min(limit, |all| + 1) == start;
  }

  /** The message table after a live message: appended to iff the sender is authenticated. */
  function Persisted(ms: seq<ChatMessage>, sender: ScopeUser, room: string, text: string, now: Timestamp): (r: seq<ChatMessage>)
    ensures IsAuthenticated(sender) ==> |r| == |ms| + 1 && r[..|ms|] == ms && r[|ms|] == ChatMessage(sender.user, Some(room), text, now)
    ensures !IsAuthenticated(sender) ==> r == ms
    ensures MessagesInTimeOrder(ms) && (forall i :: 0 <= i < |ms| ==> ms[i].timestamp <= now) ==> MessagesInTimeOrder(r)
  {
    if IsAuthenticated(sender) then ms + [ChatMessage(sender.user, Some(room), text, now)] else ms
  }

  /**
   * What a later join of any room replays after a live message: an
   * authenticated message becomes the newest entry of its own room; an
   * anonymous one never appears, and other rooms are unaffected.
   */
  lemma {:induction false} ReplayAfterSend(ms: seq<ChatMessage>, sender: ScopeUser, room: string, text: string, now: Timestamp,
                                           other: string, limit: nat)
    ensures IsAuthenticated(sender) && other == room && limit > 0 ==>
      Recent(Persisted(ms, sender, room, text, now), other, limit)
        == Recent(ms, other, limit - 1) + [ChatMessage(sender.user, Some(room), text, now)]
    ensures !IsAuthenticated(sender) || other != room ==>
      Recent(Persisted(ms, sender, room, text, now), other, limit) == Recent(ms, other, limit)
  {
    if IsAuthenticated(sender) {
      var m := ChatMessage(sender.user, Some(room), text, now);
      var ms' := ms + [m];
      assert ms'[..|ms'| - 1] == ms;
      if other == room {
        assert RoomMessages(ms', other) == RoomMessages(ms, other) + [m];
        if limit > 0 {
          WindowSnoc(RoomMessages(ms, other), m, limit);
        }
      } else {
        assert RoomMessages(ms', other) == RoomMessages(ms, other);
      }
    }
  }

  // ---------------------------------------------------------------------
  // The channel layer

  /** Group names are shorter than this. */
  const MaxGroupNameLength: nat := 100

  predicate IsGroupNameChar(c: char)
  {
    ('a' <= c <= 'z') || ('A' <= c <= 'Z') || ('0' <= c <= '9') || c == '-' || c == '_' || c == '.'
  }

  /** The layer's rule for group names: non-empty, shorter than the limit, ASCII letters, digits, hyphens, underscores and periods only. */
  predicate ValidGroupName(name: string)
  {
    0 < |name| < MaxGroupNameLength && forall i :: 0 <= i < |name| ==> IsGroupNameChar(name[i])
  }

  /** A room's group name is valid exactly when the room name is short enough and uses only the allowed characters. */
  lemma ValidRoomGroupName(room: string)
    ensures ValidGroupName(GroupName(room)) <==>
      |room| < MaxGroupNameLength - |GroupPrefix| && forall i :: 0 <= i < |room| ==> IsGroupNameChar(room[i])
  {
    var g := GroupName(room);
    assert forall i :: 0 <= i < |room| ==> g[|GroupPrefix| + i] == room[i];
    assert forall i :: 0 <= i < |GroupPrefix| ==> IsGroupNameChar(g[i]);
    if forall i :: 0 <= i < |room| ==> IsGroupNameChar(room[i]) {
      forall i | 0 <= i < |g| ensures IsGroupNameChar(g[i]) {
        if i >= |GroupPrefix| {
          assert g[i] == room[i - |GroupPrefix|];
        }
      }
    }
  }

  /** The events queued for channel `c`. */
  function PendingFor(inbox: map<ConnId, seq<Event>>, c: ConnId): seq<Event>
  {
    if c in inbox then inbox[c] else []
  }

  /** The queues after sending `e` to a group with the given members: each member's queue gains `e`, no other queue changes. */
  function Enqueued(inbox: map<ConnId, seq<Event>>, members: set<ConnId>, e: Event): (r: map<ConnId, seq<Event>>)
    ensures forall c :: c in members ==> PendingFor(r, c) == PendingFor(inbox, c) + [e]
    ensures forall c :: c !in members ==> PendingFor(r, c) == PendingFor(inbox, c)
  {
    map c | c in inbox.Keys + members :: PendingFor(inbox, c) + (if c in members then [e] else [])
  }

  /** The process-wide group layer. */
  class ChannelLayer {
    var groups: map<string, set<ConnId>>
    var inbox: map<ConnId, seq<Event>>

    constructor ()
      ensures groups == map[] && inbox == map[]
    {
      groups := map[];
      inbox := map[];
    }

    function Members(group: string): set<ConnId>
      reads this`groups
    {
      if group in groups then groups[group] else {}
    }

    /** Adds a channel to a group; adding a member again changes nothing. An invalid group name is refused. */
    method GroupAdd(group: string, channel: ConnId) returns (ok: bool)
      modifies this`groups
      ensures ok == ValidGroupName(group)
      ensures ok ==> groups == old(groups)[group := old(Members(group)) + {channel}]
      ensures !ok ==> groups == old(groups)
    {
      if !ValidGroupName(group) {
        return false;
      }
      groups := groups[group := Members(group) + {channel}];
      return true;
    }

    /** Removes a channel from a group; removing a non-member changes nothing observable. An invalid group name is refused. */
    method GroupDiscard(group: string, channel: ConnId) returns (ok: bool)
      modifies this`groups
      ensures ok == ValidGroupName(group)
      ensures ok ==> groups == old(groups)[group := old(Members(group)) - {channel}]
      ensures !ok ==> groups == old(groups)
    {
      if !ValidGroupName(group) {
        return false;
      }
      groups := groups[group := Members(group) - {channel}];
      return true;
    }

    /** Takes the oldest event queued for a channel off its queue. */
    method Receive(channel: ConnId) returns (e: Event)
      requires PendingFor(inbox, channel) != []
      modifies this`inbox
      ensures e == old(PendingFor(inbox, channel))[0]
      ensures inbox == old(inbox)[channel := old(PendingFor(inbox, channel))[1..]]
      ensures PendingFor(inbox, channel) == old(PendingFor(inbox, channel))[1..]
    {
      e := inbox[channel][0];
      inbox := inbox[channel := inbox[channel][1..]];
    }

    /** Queues an event for every current member of the group. An invalid group name is refused. */
    method GroupSend(group: string, e: Event) returns (ok: bool)
      modifies this`inbox
      ensures ok == ValidGroupName(group)
      ensures ok ==> inbox == Enqueued(old(inbox), Members(group), e)
      ensures !ok ==> inbox == old(inbox)
    {
      if !ValidGroupName(group) {
        return false;
      }
      inbox := Enqueued(inbox, Members(group), e);
      return true;
    }
  }

  // ---------------------------------------------------------------------
  // The consumer

  /** One websocket connection's session. */
  class EchoConsumer {
    const channelName: ConnId
    const scopeUser: ScopeUser
    var roomName: Option<string>
    var roomGroupName: Option<string>
    var accepted: bool
    /** The frames written to this connection's socket, in order. */
    var sent: seq<Frame>

    constructor (channelName: ConnId, scopeUser: ScopeUser)
      ensures this.channelName == channelName && this.scopeUser == scopeUser
      ensures roomName == None && roomGroupName == None && !accepted && sent == []
    {
      this.channelName := channelName;
      this.scopeUser := scopeUser;
      roomName := None;
      roomGroupName := None;
      accepted := false;
      sent := [];
    }

    /** The state `Connect` leaves behind. */
    ghost predicate Joined()
      reads this
    {
      roomName.Some? && roomGroupName == Some(GroupName(roomName.value)) && ValidGroupName(roomGroupName.value) && accepted
    }

    /**
     * Joins the room's group, accepts the connection, then replays the room's
     * newest `HistoryLimit` stored messages, oldest first. When the layer
     * refuses the group name, the connection fails before it is accepted.
     */
    method Connect(route: string, layer: ChannelLayer, db: Database) returns (ok: bool)
      modifies this`roomName, this`roomGroupName, this`accepted, this`sent, layer`groups
      ensures roomName == Some(route) && roomGroupName == Some(GroupName(route))
      ensures ok == ValidGroupName(GroupName(route))
      ensures ok ==>
        && Joined()
        && layer.groups == old(layer.groups)[GroupName(route) := old(layer.Members(GroupName(route))) + {channelName}]
        && channelName in layer.Members(GroupName(route))
        && sent == old(sent) + Frames(Recent(db.messages, route, HistoryLimit))
      ensures !ok ==> accepted == old(accepted) && sent == old(sent) && layer.groups == old(layer.groups)
    {
      roomName := Some(route);
      roomGroupName := Some(GroupName(route));
      ok := layer.GroupAdd(GroupName(route), channelName);
      if !ok {
        return;
      }
      accepted := true;
      var newest := NewestFirst(db.messages, route, HistoryLimit);
      NewestFirstReversesRecent(db.messages, route, HistoryLimit);
      SendOldestFirst(newest, Recent(db.messages, route, HistoryLimit));
    }

    /** Writes the replay frames of a newest-first history in reverse, so the oldest message goes first. */
    method SendOldestFirst(newest: seq<ChatMessage>, ghost oldest: seq<ChatMessage>)
      requires newest == Reverse(oldest)
      modifies this`sent
      ensures sent == old(sent) + Frames(oldest)
    {
      for j := 0 to |newest|
        invariant sent == old(sent) + Frames(oldest[..j])
      {
        assert oldest[..j + 1] == oldest[..j] + [newest[|newest| - 1 - j]];
        sent := sent + [StoredFrame(newest[|newest| - 1 - j])];
      }
      assert oldest[..|newest|] == oldest;
    }

    /** Leaves the group; fails, changing nothing, when the connection never got a group name or the layer refuses it. */
    method Disconnect(layer: ChannelLayer) returns (ok: bool)
      modifies layer`groups
      ensures ok == (roomGroupName.Some? && ValidGroupName(roomGroupName.value))
      ensures ok ==> layer.groups == old(layer.groups)[roomGroupName.value := old(layer.Members(roomGroupName.value)) - {channelName}]
      ensures !ok ==> layer.groups == old(layer.groups)
    {
      if roomGroupName.None? {
        return false;
      }
      ok := layer.GroupDiscard(roomGroupName.value, channelName);
    }

    /**
     * Handles an inbound frame: stores the text when the sender is
     * authenticated (which needs the room's row), then sends the event to
     * every member of the group, this connection included.
     */
    method Receive(inbound: Inbound, layer: ChannelLayer, db: Database) returns (outcome: ReceiveOutcome)
      requires Joined() && db.Valid()
      modifies layer`inbox, db`messages
      ensures db.Valid()
      ensures outcome.Broadcast? <==>
        inbound.textData != [] && inbound.message.Some? && (IsAuthenticated(scopeUser) ==> roomName.value in db.rooms)
      ensures inbound.textData == [] ==> outcome == Ignored
      ensures inbound.textData != [] && inbound.message.None? ==> outcome == ParseError
      ensures outcome == RoomMissing <==>
        inbound.textData != [] && inbound.message.Some? && IsAuthenticated(scopeUser) && roomName.value !in db.rooms
      ensures !outcome.Broadcast? ==> layer.inbox == old(layer.inbox) && db.messages == old(db.messages)
      ensures outcome.Broadcast? ==>
        && outcome.event == Event(inbound.message.value, SenderName(scopeUser), db.clock)
        && db.messages == Persisted(old(db.messages), scopeUser, roomName.value, inbound.message.value, db.clock)
        && layer.inbox == Enqueued(old(layer.inbox), layer.Members(roomGroupName.value), outcome.event)
      ensures outcome.Broadcast? && channelName in layer.Members(roomGroupName.value) ==>
        PendingFor(layer.inbox, channelName) == PendingFor(old(layer.inbox), channelName) + [outcome.event]
    {
      if inbound.textData == [] {
        return Ignored;
      }
      if inbound.message.None? {
        return ParseError;
      }
      var message := inbound.message.value;
      var username := SenderName(scopeUser);
      var timestamp := db.clock;
      if IsAuthenticated(scopeUser) {
        if roomName.value !in db.rooms {
          return RoomMissing;
        }
        db.CreateMessage(scopeUser.user, roomName.value, message);
      }
      var e := Event(message, username, timestamp);
      var _ := layer.GroupSend(roomGroupName.value, e);
      return Broadcast(e);
    }

    /**
     * The layer dispatches the oldest event queued for this connection to its
     * `chat_message` handler, which writes it to the socket.
     */
    method Deliver(layer: ChannelLayer)
      requires PendingFor(layer.inbox, channelName) != []
      modifies this`sent, layer`inbox
      ensures sent == old(sent) + [EventFrame(old(PendingFor(layer.inbox, channelName))[0])]
      ensures layer.inbox == old(layer.inbox)[channelName := old(PendingFor(layer.inbox, channelName))[1..]]
      ensures PendingFor(layer.inbox, channelName) == old(PendingFor(layer.inbox, channelName))[1..]
    {
      var e := layer.Receive(channelName);
      ChatMessage(e);
    }

    /** Writes a group event to this connection's socket. */
    method ChatMessage(event: Event)
      modifies this`sent
      ensures sent == old(sent) + [EventFrame(event)]
    {
      sent := sent + [EventFrame(event)];
    }
  }
}
