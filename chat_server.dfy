/** The conversation server: the socket relay (socket/index.js) and the
    match routes (routes/matches.js, routes/matches-like.js) over one store
    of matches and messages. What the server emits is kept as a log of
    deliveries, each addressed to one socket or to one room. */
module ChatServer {
  import opened Base
  import opened ChatModel
  import opened Auth

  // ---------------------------------------------------------------------
  // Events and acknowledgements

  datatype Payload =
    | Joined(matchId: Id)
    | MessageNew(id: Id, matchId: Id, from: Id, text: string, createdAt: int, clientTempId: JsValue, seenBy: seq<Id>)
    | MatchUpdated(matchId: Id, text: string, createdAt: int, from: Id)
    | MessageRead(matchId: Id, readerId: Id, messageIds: seq<Id>)
    | TypingEvent(userId: Id, isTyping: bool)

  /** `socket.emit` (to one socket) or `io.to(room).emit` (to a room). */
  datatype Delivery = ToSocket(sid: string, payload: Payload) | ToRoom(room: string, payload: Payload)

  /** What a socket handler passes to the client's acknowledgement callback. */
  datatype Ack = SendOk(serverId: Id, clientTempId: JsValue) | ReadOk(updated: nat) | AckError(error: string)

  /** What `POST /:id/read` answers when the caller may read the match. */
  datatype ReadSummary = NothingToRead | ReadDone(updated: nat, unreadLeft: nat)

  const TrimNotAFunction := "text.trim is not a function"
  const FilterNotAFunction := "messageIds.filter is not a function"
  const BadHexString := "input must be a 24 character hex string"
  const DateCastFailure := "Cast to date failed"

  function MatchRoom(id: Id): string { "match:" + id }

  function UserRoom(id: Id): string { "user:" + id }

  predicate IsMatchRoom(room: string)
  {
    StartsWith(room, "match:")
  }

  /** A match room is one, a personal channel never is. */
  lemma RoomKinds(id: Id)
    ensures IsMatchRoom(MatchRoom(id))
    ensures !IsMatchRoom(UserRoom(id))
  {
    assert MatchRoom(id)[..6] == "match:";
    if |UserRoom(id)| >= 6 {
      assert UserRoom(id)[..6][0] == 'u';
    }
  }

  /** The `match:updated` signal, once to the personal channel of each
      member, in the order of `users`. */
  function MemberUpdates(users: seq<Id>, last: Payload): seq<Delivery>
  {
    seq(|users|, i requires 0 <= i < |users| => ToRoom(UserRoom(users[i]), last))
  }

  /** The ids of the request values that are ObjectIds, in order
      (`messageIds.filter(isValidObjectId)`). */
  function ValidIds(items: seq<JsValue>): (r: seq<Id>)
    ensures forall i :: 0 <= i < |r| ==> IsObjectId(r[i])
    ensures forall x :: x in r <==> Str(x) in items && IsObjectId(x)
  {
    if items == [] then []
    else
      var rest := ValidIds(items[1..]);
      assert items == [items[0]] + items[1..];
      if IsObjectIdValue(items[0]) then [items[0].s] + rest else rest
  }

  /** A list of ObjectIds passes the filter whole. */
  lemma {:induction false} ValidIdsKeepsValidList(items: seq<JsValue>)
    requires forall i :: 0 <= i < |items| ==> IsObjectIdValue(items[i])
    ensures |ValidIds(items)| == |items|
    ensures forall i :: 0 <= i < |items| ==> Str(ValidIds(items)[i]) == items[i]
  {
    if items != [] {
      var tail := items[1..];
      ValidIdsKeepsValidList(tail);
      var r := ValidIds(items);
      assert r == [items[0].s] + ValidIds(tail);
      assert forall i :: 1 <= i < |items| ==> r[i] == ValidIds(tail)[i - 1] && items[i] == tail[i - 1];
    }
  }

  /** `const { messageIds = [] } = req.body; messageIds.filter(...)`: only
      an absent list defaults to empty; a value that is not an array has no
      `filter` and fails (`None`). */
  function RestReadIds(messageIds: JsValue): (r: Option<seq<Id>>)
    ensures r.Some? <==> messageIds.Undefined? || messageIds.Arr?
    ensures messageIds.Undefined? ==> r == Some([])
    ensures messageIds.Arr? ==> r == Some(ValidIds(messageIds.items))
  {
    match messageIds
    case Undefined => Some([])
    case Arr(items) => Some(ValidIds(items))
    case _ => None
  }

  // ---------------------------------------------------------------------
  // Connections

  /** One socket that passed the handshake guard: its id, the user it runs
      under, and the rooms it is in. */
  class Connection {
    const sid: string
    const userId: Id
    var open: bool
    var rooms: set<string>

    /** An open connection is in its own room and its user's channel and in
        at most one match room; a dropped one is in none. */
    ghost predicate Valid()
      reads this
    {
      && !IsMatchRoom(sid)
      && (open ==> userId != [] && sid in rooms && UserRoom(userId) in rooms)
      && (!open ==> rooms == {})
      && forall r, q :: r in rooms && q in rooms && IsMatchRoom(r) && IsMatchRoom(q) ==> r == q
    }

    /** The `connection` handler: the user id is `String(user._id || "")`;
        an empty one drops the socket, any other joins the user's channel. */
    constructor(sid: string, user: SocketUser)
      requires !IsMatchRoom(sid)
      ensures Valid()
      ensures this.sid == sid && userId == ConnectionUserId(user)
      ensures open <==> userId != []
      ensures open ==> rooms == {sid, UserRoom(userId)}
    {
      this.sid := sid;
      var uid := ConnectionUserId(user);
      userId := uid;
      RoomKinds(uid);
      if uid == [] {
        open := false;
        rooms := {};
      } else {
        open := true;
        rooms := {sid, UserRoom(uid)};
      }
    }

    /** Leaves every match room it is in, one at a time, and enters
        `room`. */
    method SwitchMatchRoom(room: string)
      requires Valid() && open && IsMatchRoom(room)
      modifies this`rooms
      ensures Valid()
      ensures rooms == (set r | r in old(rooms) && !IsMatchRoom(r)) + {room}
    {
      LeaveMatchRooms();
      RoomKinds(userId);
      assert sid in rooms && UserRoom(userId) in rooms;
      rooms := rooms + {room};
      assert forall q :: q in rooms && IsMatchRoom(q) ==> q == room;
    }

    /** `[...socket.rooms].filter(isMatchRoom).forEach(leave)` */
    method LeaveMatchRooms()
      modifies this`rooms
      ensures rooms == set r | r in old(rooms) && !IsMatchRoom(r)
    {
      ghost var kept := set r | r in rooms && !IsMatchRoom(r);
      var stale := set r | r in rooms && IsMatchRoom(r);
      assert rooms == kept + stale;
      while stale != {}
        invariant rooms == kept + stale
        invariant kept !! stale
        decreases |stale|
      {
        var r :| r in stale;
        rooms := rooms - {r};
        stale := stale - {r};
      }
    }

    /** `disconnect`: the socket leaves every room. */
    method Close()
      requires Valid()
      modifies this
      ensures Valid()
      ensures !open && rooms == {}
    {
      open := false;
      rooms := {};
    }
  }

  /** The `$addToSet` of `updateMany`, one document at a time, counting
      the documents it changes. */
  method AddToSeen(msgs: seq<Message>, sel: Selector, user: Id) returns (marked: seq<Message>, modified: nat)
    ensures marked == MarkAll(msgs, sel, user)
    ensures modified == Modified(msgs, sel, user)
  {
    marked := msgs;
    modified := 0;
    var i := 0;
    while i < |marked|
      invariant 0 <= i <= |marked| == |msgs|
      invariant forall k :: 0 <= k < i ==> marked[k] == MarkOne(msgs[k], sel, user)
      invariant forall k :: i <= k < |marked| ==> marked[k] == msgs[k]
      invariant modified == Modified(msgs[..i], sel, user)
    {
      assert msgs[..i + 1] == msgs[..i] + [msgs[i]];
      ModifiedAppend(msgs[..i], msgs[i], sel, user);
      var m := marked[i];
      if Selected(m, sel) && user !in m.seenBy {
        marked := marked[i := m.(seenBy := m.seenBy + [user])];
        modified := modified + 1;
      }
      i := i + 1;
    }
    assert msgs[..i] == msgs;
  }

  // ---------------------------------------------------------------------
  // Handler guards

  /** How the `message` handler treats an event before it writes. */
  datatype SendCheck = SendIgnored | SendRefused(error: string) | SendAccepted(room: Match, text: string)

  /** The `message` handler's checks, in its order: a dropped socket, a
      match id that is not an ObjectId and a missing or blank text are
      ignored; a text that is not a string fails at `trim`; a user id that
      is not an ObjectId fails the query's cast; a non-member is ignored. */
  function SendGate(ms: seq<Match>, open: bool, userId: Id, matchId: string, text: JsValue): (g: SendCheck)
    ensures !open || !IsObjectId(matchId) || Nullish(text) || (text.Str? && Blank(text.s)) ==> g == SendIgnored
    ensures open && IsObjectId(matchId) && !Nullish(text) && !text.Str? ==> g == SendRefused(TrimNotAFunction)
    ensures open && IsObjectId(matchId) && text.Str? && !Blank(text.s) && !IsObjectId(userId) ==> g == SendRefused(CastFailure)
    ensures g.SendAccepted? <==>
              open && IsObjectId(matchId) && text.Str? && !Blank(text.s) && IsObjectId(userId) && IsMember(ms, matchId, userId)
    ensures g.SendAccepted? ==> g.room == FindMatch(ms, matchId).value && g.text == Trim(text.s) && g.text != []
  {
    if !open || !IsObjectId(matchId) || Nullish(text) then SendIgnored
    else if !text.Str? then SendRefused(TrimNotAFunction)
    else if Blank(text.s) then SendIgnored
    else if !IsObjectId(userId) then SendRefused(CastFailure)
    else if !IsMember(ms, matchId, userId) then SendIgnored
    else SendAccepted(FindMatch(ms, matchId).value, Trim(text.s))
  }

  /** How the socket `message:read` handler treats an event before it
      writes: ignore it, answer at once, or update with these ids. */
  datatype ReadCheck = ReadIgnored | ReadAnswered(ack: Ack) | ReadAccepted(ids: seq<Id>)

  /** The `message:read` handler's checks, in its order: a dropped socket
      or a match id that is not an ObjectId is ignored; a list that is
      missing, not an array or empty is answered with 0 before anything
      else; a user id that is not an ObjectId fails the cast; a non-member
      is ignored; a listed id that is not an ObjectId fails the cast. */
  function ReadGate(ms: seq<Match>, open: bool, userId: Id, matchId: string, messageIds: JsValue): (g: ReadCheck)
    ensures !open || !IsObjectId(matchId) ==> g == ReadIgnored
    ensures open && IsObjectId(matchId) && (!messageIds.Arr? || messageIds.items == []) ==> g == ReadAnswered(ReadOk(0))
    ensures open && IsObjectId(matchId) && messageIds.Arr? && messageIds.items != [] && !IsObjectId(userId) ==>
              g == ReadAnswered(AckError(CastFailure))
    ensures g.ReadAnswered? ==> g.ack == ReadOk(0) || g.ack == AckError(CastFailure)
    ensures g.ReadAccepted? <==>
              open && IsObjectId(matchId) && messageIds.Arr? && messageIds.items != [] && IsObjectId(userId)
              && IsMember(ms, matchId, userId)
              && forall i :: 0 <= i < |messageIds.items| ==> IsObjectIdValue(messageIds.items[i])
    ensures g.ReadAccepted? ==> messageIds.Arr? && g.ids == ValidIds(messageIds.items)
                                && |g.ids| == |messageIds.items| > 0
  {
    if !open || !IsObjectId(matchId) then ReadIgnored
    else if !messageIds.Arr? || messageIds.items == [] then ReadAnswered(ReadOk(0))
    else if !IsObjectId(userId) then ReadAnswered(AckError(CastFailure))
    else if !IsMember(ms, matchId, userId) then ReadIgnored
    else if exists i :: 0 <= i < |messageIds.items| && !IsObjectIdValue(messageIds.items[i]) then
      ReadAnswered(AckError(CastFailure))
    else
      ValidIdsKeepsValidList(messageIds.items);
      ReadAccepted(ValidIds(messageIds.items))
  }

  /** The checks of `POST /:id/read`, in its order: the caller's id must be
      an ObjectId (500), the reference must resolve (400), the match must
      exist (404) and have the caller as a member (403), and the body's
      `messageIds` must be absent or an array (500). The result is the
      match id and the listed ObjectIds, possibly none. */
  function RestReadGate(ms: seq<Match>, me: Id, reference: string, messageIds: JsValue): (g: Reply<(Id, seq<Id>)>)
    ensures !IsObjectId(me) ==> g == Fail(500, BadHexString)
    ensures IsObjectId(me) && Resolve(ms, reference).None? ==> g == Fail(400, "bad id")
    ensures IsObjectId(me) && Resolve(ms, reference).Some? && !HasMatchId(ms, Resolve(ms, reference).value) ==>
              g == Fail(404, "match not found")
    ensures IsObjectId(me) && Resolve(ms, reference).Some? && HasMatchId(ms, Resolve(ms, reference).value)
            && !IsMember(ms, Resolve(ms, reference).value, me)
            ==> g == Fail(403, "forbidden")
    ensures IsObjectId(me) && Resolve(ms, reference).Some? && IsMember(ms, Resolve(ms, reference).value, me)
            && RestReadIds(messageIds).None?
            ==> g == Fail(500, FilterNotAFunction)
    ensures g.Ok? <==> IsObjectId(me) && Resolve(ms, reference).Some? && IsMember(ms, Resolve(ms, reference).value, me)
                       && RestReadIds(messageIds).Some?
    ensures g.Ok? ==> g.value == (Resolve(ms, reference).value, RestReadIds(messageIds).value)
  {
    if !IsObjectId(me) then Fail(500, BadHexString)
    else
      match Resolve(ms, reference)
      case None => Fail(400, "bad id")
      case Some(matchId) =>
        match FindMatch(ms, matchId)
        case None => Fail(404, "match not found")
        case Some(m) =>
          if me !in m.users then Fail(403, "forbidden")
          else
            match RestReadIds(messageIds)
            case None => Fail(500, FilterNotAFunction)
            case Some(ids) => Ok((matchId, ids))
  }

  // ---------------------------------------------------------------------
  // The server

  class Server {
    var matches: seq<Match>
    var messages: seq<Message>
    var log: seq<Delivery>
    /** Whether `app.set("io", io)` was done; the server never does it, so
        the REST read handler's broadcast reaches nobody. */
    const ioRegistered: bool

    /** The store's unique indexes, insertion order agreeing with creation
        time, read receipts as sets, and `like` keeping each unordered pair
        of users in at most one match, stored sorted. */
    ghost predicate Valid()
      reads this
    {
      && MatchIdsUnique(matches)
      && RoomIdsUnique(matches)
      && SortedPairs(matches)
      && OnePerPair(matches)
      && MessageIdsUnique(messages)
      && Chronological(messages)
      && SeenBySets(messages)
    }

    constructor(ioRegistered: bool)
      ensures Valid()
      ensures matches == [] && messages == [] && log == [] && this.ioRegistered == ioRegistered
    {
      matches := [];
      messages := [];
      log := [];
      this.ioRegistered := ioRegistered;
    }

    /** `freshId` has not been given to a message and the clock has not run
        backwards: what the store guarantees of the id and time it stamps
        on a new message. */
    ghost predicate CanStamp(freshId: Id, now: int)
      reads this
    {
      forall i :: 0 <= i < |messages| ==> messages[i].id != freshId && messages[i].createdAt <= now
    }

    // -------------------------------------------------------------------
    // Like

    /** `POST /like/:targetId` */
    method Like(me: Id, you: Id, freshId: Id, now: int) returns (r: Reply<Id>)
      requires Valid()
      modifies this`matches
      ensures Valid()
      ensures (r, matches) == LikeStep(old(matches), me, you, freshId, now)
    {
      LikeKeepsOnePerPair(matches, me, you, freshId, now);
      if me == you {
        return Fail(400, "self like not allowed");
      }
      if !IsObjectId(me) || !IsObjectId(you) {
        return Fail(500, CastFailure);
      }
      var users := SortPair(me, you);
      var found := FindByUsers(matches, users);
      if found.Some? {
        return Ok(found.value.id);
      }
      var inserted := InsertMatch(matches, Match(freshId, users, None, None, now, now));
      if inserted.None? {
        return Fail(500, "duplicate key");
      }
      matches := inserted.value;
      r := Ok(freshId);
    }

    // -------------------------------------------------------------------
    // Socket events

    /** `join`: a member of the match leaves every match room it is in,
        enters this one and is told so; anything else is ignored. */
    method Join(c: Connection, matchId: string)
      requires c.Valid()
      modifies c`rooms, this`log
      ensures c.Valid()
      ensures c.open && IsObjectId(matchId) && IsObjectId(c.userId) && IsMember(matches, matchId, c.userId) ==>
                && c.rooms == (set r | r in old(c.rooms) && !IsMatchRoom(r)) + {MatchRoom(matchId)}
                && log == old(log) + [ToSocket(c.sid, Joined(matchId))]
      ensures !(c.open && IsObjectId(matchId) && IsObjectId(c.userId) && IsMember(matches, matchId, c.userId)) ==>
                c.rooms == old(c.rooms) && log == old(log)
    {
      if !c.open || !IsObjectId(matchId) || !IsObjectId(c.userId) || !IsMember(matches, matchId, c.userId) {
        return;
      }
      RoomKinds(matchId);
      c.SwitchMatchRoom(MatchRoom(matchId));
      log := log + [ToSocket(c.sid, Joined(matchId))];
    }

    /** `message`: a member's non-blank text is stored trimmed, already
        seen by its sender; the match points at it; the sender is
        acknowledged with the stored id; the match room gets the message
        and every member's channel the sidebar update. */
    method Send(c: Connection, matchId: string, text: JsValue, clientTempId: JsValue, freshId: Id, now: int)
      returns (ack: Option<Ack>)
      requires Valid() && CanStamp(freshId, now)
      modifies this`messages, this`matches, this`log
      ensures Valid()
      ensures var g := SendGate(old(matches), c.open, c.userId, matchId, text);
        && (g.SendIgnored? ==> ack.None?)
        && (g.SendRefused? ==> ack == Some(AckError(g.error)))
        && (!g.SendAccepted? ==> messages == old(messages) && matches == old(matches) && log == old(log))
        && (g.SendAccepted? ==>
              && ack == Some(SendOk(freshId, clientTempId))
              && messages == old(messages) + [Message(freshId, matchId, c.userId, g.text, [], [c.userId], now)]
              && matches == WithLastMessage(old(matches), matchId, freshId, now)
              && log == old(log)
                        + [ToRoom(MatchRoom(matchId), MessageNew(freshId, matchId, c.userId, g.text, now, clientTempId, [c.userId]))]
                        + MemberUpdates(g.room.users, MatchUpdated(matchId, g.text, now, c.userId)))
    {
      var g := SendGate(matches, c.open, c.userId, matchId, text);
      if g.SendIgnored? {
        return None;
      } else if g.SendRefused? {
        return Some(AckError(g.error));
      }
      var msg := Message(freshId, matchId, c.userId, g.text, [], [c.userId], now);
      StoreMessage(msg);
      ack := Some(SendOk(msg.id, clientTempId));

      log := log + [ToRoom(MatchRoom(matchId), MessageNew(msg.id, matchId, c.userId, msg.text, msg.createdAt, clientTempId, [c.userId]))];
      NotifyMembers(g.room.users, MatchUpdated(matchId, msg.text, msg.createdAt, c.userId));
    }

    /** `Message.create(msg)`, then `match.lastMessage = msg._id` and
        `match.save()`. */
    method StoreMessage(msg: Message)
      requires Valid() && CanStamp(msg.id, msg.createdAt) && NoDup(msg.seenBy)
      modifies this`messages, this`matches
      ensures Valid()
      ensures messages == old(messages) + [msg]
      ensures matches == WithLastMessage(old(matches), msg.matchId, msg.id, msg.createdAt)
    {
      AppendMessageKeepsStore(messages, msg);
      messages := messages + [msg];
      matches := WithLastMessage(matches, msg.matchId, msg.id, msg.createdAt);
    }

    /** `match.users.forEach(uid => io.to("user:" + uid).emit(...))` */
    method NotifyMembers(users: seq<Id>, last: Payload)
      modifies this`log
      ensures log == old(log) + MemberUpdates(users, last)
    {
      var i := 0;
      while i < |users|
        invariant 0 <= i <= |users|
        invariant log == old(log) + MemberUpdates(users[..i], last)
      {
        assert MemberUpdates(users[..i + 1], last) == MemberUpdates(users[..i], last) + [ToRoom(UserRoom(users[i]), last)];
        log := log + [ToRoom(UserRoom(users[i]), last)];
        i := i + 1;
      }
      assert users[..i] == users;
    }

    /** `updateMany(sel, { $addToSet: { seenBy: user } })` on the store. */
    method UpdateSeen(sel: Selector, user: Id) returns (modified: nat)
      requires Valid()
      modifies this`messages
      ensures Valid()
      ensures messages == MarkAll(old(messages), sel, user)
      ensures modified == Modified(old(messages), sel, user)
    {
      MarkAllKeepsStore(messages, sel, user);
      var marked;
      marked, modified := AddToSeen(messages, sel, user);
      messages := marked;
    }

    /** `message:read` from a socket: a member's listed messages of this
        match, sent by others, gain the reader in `seenBy`; the match room
        is told which ids were read, and the reader how many messages
        changed. */
    method MarkRead(c: Connection, matchId: string, messageIds: JsValue) returns (ack: Option<Ack>)
      requires Valid()
      modifies this`messages, this`log
      ensures Valid()
      ensures var g := ReadGate(matches, c.open, c.userId, matchId, messageIds);
        && (g.ReadIgnored? ==> ack.None?)
        && (g.ReadAnswered? ==> ack == Some(g.ack))
        && (!g.ReadAccepted? ==> messages == old(messages) && log == old(log))
        && (g.ReadAccepted? ==>
              var sel := ReadSelector(g.ids, matchId, c.userId);
              && messages == MarkAll(old(messages), sel, c.userId)
              && log == old(log) + [ToRoom(MatchRoom(matchId), MessageRead(matchId, c.userId, g.ids))]
              && ack == Some(ReadOk(Modified(old(messages), sel, c.userId))))
    {
      var g := ReadGate(matches, c.open, c.userId, matchId, messageIds);
      if g.ReadIgnored? {
        return None;
      } else if g.ReadAnswered? {
        return Some(g.ack);
      }
      var updated := UpdateSeen(ReadSelector(g.ids, matchId, c.userId), c.userId);
      log := log + [ToRoom(MatchRoom(matchId), MessageRead(matchId, c.userId, g.ids))];
      ack := Some(ReadOk(updated));
    }

    /** `typing`: relayed to the match room with the sender's id, for any
        ObjectId; membership is not checked. */
    method Typing(c: Connection, matchId: string, isTyping: JsValue)
      modifies this`log
      ensures c.open && IsObjectId(matchId) ==>
                log == old(log) + [ToRoom(MatchRoom(matchId), TypingEvent(c.userId, Truthy(isTyping)))]
      ensures !(c.open && IsObjectId(matchId)) ==> log == old(log)
    {
      if c.open && IsObjectId(matchId) {
        log := log + [ToRoom(MatchRoom(matchId), TypingEvent(c.userId, Truthy(isTyping)))];
      }
    }

    // -------------------------------------------------------------------
    // REST

    /** `GET /`: the caller's rooms, newest activity first, each with the
        number of messages from others the caller has not seen. A caller id
        that is not an ObjectId fails the cast (500). */
    function ListRooms(user: Id): (r: Reply<seq<Room>>)
      reads this
      ensures r.Ok? <==> IsObjectId(user)
      ensures r.Fail? ==> r.status == 500
      ensures r.Ok? ==> forall i :: 0 <= i < |r.value| ==>
                r.value[i].room in matches && user in r.value[i].room.users
                && r.value[i].unreadCount == Unread(messages, r.value[i].room.id, user)
      ensures r.Ok? ==> forall i, j :: 0 <= i < j < |r.value| ==> r.value[i].room.updatedAt >= r.value[j].room.updatedAt
      ensures r.Ok? ==> forall m :: m in matches && user in m.users ==>
                exists i :: 0 <= i < |r.value| && r.value[i].room == m
    {
      if !IsObjectId(user) then Fail(500, BadHexString)
      else
        var rooms := RoomList(matches, messages, user);
        assert forall m :: (exists i :: 0 <= i < |rooms| && rooms[i].room == m) <==> m in matches && user in m.users by {
          forall m { RoomListMembers(matches, messages, user, m); }
        }
        Ok(rooms)
    }

    /** `GET /:id/messages`: a page of the match's history, oldest first.
        The reference is a match id or a room code; any caller may read any
        match. A truthy `before` is read as a date by `parse`; one that is
        no date fails the query's cast and reaches the error handler. */
    function ListMessages(reference: string, before: JsValue, limit: Option<int>, parse: JsValue -> Option<int>): (r: Reply<seq<Message>>)
      requires Valid()
      reads this
      ensures Resolve(matches, reference).None? ==> r == Fail(400, "bad id")
      ensures Resolve(matches, reference).Some? && Truthy(before) && parse(before).None? ==> r == Fail(500, DateCastFailure)
      ensures r.Ok? <==> Resolve(matches, reference).Some? && (Truthy(before) ==> parse(before).Some?)
      ensures r.Ok? ==> forall i :: 0 <= i < |r.value| ==>
                r.value[i] in messages
                && InPage(r.value[i], Resolve(matches, reference).value, if Truthy(before) then parse(before) else None)
      ensures r.Ok? ==> Chronological(r.value)
      ensures r.Ok? && limit.None? ==> |r.value| <= 30
      ensures r.Ok? && limit.Some? && limit.value >= 1 ==> |r.value| <= 100
    {
      match Resolve(matches, reference)
      case None => Fail(400, "bad id")
      case Some(matchId) =>
        if Truthy(before) && parse(before).None? then Fail(500, DateCastFailure)
        else
          var bound := if Truthy(before) then parse(before) else None;
          PageProperties(messages, matchId, bound, limit);
          Ok(MessagePage(messages, matchId, bound, limit))
    }

    /** `POST /:id/read`: the caller's listed messages of the match, sent by
        others, gain the caller in `seenBy`; the answer carries how many
        changed and how many of the match's messages the caller still has
        not seen, which together are what was unseen before. */
    method ReadRest(me: Id, reference: string, messageIds: JsValue) returns (r: Reply<ReadSummary>)
      requires Valid()
      modifies this`messages, this`log
      ensures Valid()
      ensures var g := RestReadGate(matches, me, reference, messageIds);
        && (g.Fail? ==> r == Fail(g.status, g.message))
        && (g.Ok? && g.value.1 == [] ==> r == Ok(NothingToRead))
        && (!(g.Ok? && g.value.1 != []) ==> messages == old(messages) && log == old(log))
        && (g.Ok? && g.value.1 != [] ==>
              var matchId := g.value.0;
              var ids := g.value.1;
              var sel := ReadSelector(ids, matchId, me);
              && messages == MarkAll(old(messages), sel, me)
              && r == Ok(ReadDone(Modified(old(messages), sel, me), Unread(messages, matchId, me)))
              && r.value.unreadLeft + r.value.updated == Unread(old(messages), matchId, me)
              && log == old(log) + (if ioRegistered then [ToRoom(MatchRoom(matchId), MessageRead(matchId, me, ids))] else []))
    {
      var g := RestReadGate(matches, me, reference, messageIds);
      if g.Fail? {
        return Fail(g.status, g.message);
      }
      var matchId := g.value.0;
      var ids := g.value.1;
      if ids == [] {
        return Ok(NothingToRead);
      }
      var summary := ApplyRead(matchId, ids, me);
      r := Ok(summary);
    }

    /** The update, the broadcast and the answer of a REST read with a
        non-empty id list. */
    method ApplyRead(matchId: Id, ids: seq<Id>, me: Id) returns (summary: ReadSummary)
      requires Valid()
      modifies this`messages, this`log
      ensures Valid()
      ensures var sel := ReadSelector(ids, matchId, me);
        && messages == MarkAll(old(messages), sel, me)
        && summary == ReadDone(Modified(old(messages), sel, me), Unread(messages, matchId, me))
        && summary.unreadLeft + summary.updated == Unread(old(messages), matchId, me)
      ensures log == old(log) + (if ioRegistered then [ToRoom(MatchRoom(matchId), MessageRead(matchId, me, ids))] else [])
    {
      UnreadAfterMark(messages, ids, matchId, me);
      var updated := UpdateSeen(ReadSelector(ids, matchId, me), me);
      if ioRegistered {
        log := log + [ToRoom(MatchRoom(matchId), MessageRead(matchId, me, ids))];
      }
      summary := ReadDone(updated, Unread(messages, matchId, me));
    }

    /** `Message.markSeen`: the listed messages gain `user` in `seenBy`,
        whatever match they belong to and whoever sent them; an id that is
        not an ObjectId fails the cast (`None`). */
    method MarkSeen(messageIds: seq<string>, user: string) returns (r: Option<nat>)
      requires Valid()
      modifies this`messages
      ensures Valid()
      ensures r.Some? <==> IsObjectId(user) && forall i :: 0 <= i < |messageIds| ==> IsObjectId(messageIds[i])
      ensures r.None? ==> messages == old(messages)
      ensures r.Some? ==> messages == MarkAll(old(messages), Selector(messageIds, None, None), user)
                          && r.value == Modified(old(messages), Selector(messageIds, None, None), user)
    {
      if !IsObjectId(user) || exists i :: 0 <= i < |messageIds| && !IsObjectId(messageIds[i]) {
        return None;
      }
      var modified := UpdateSeen(Selector(messageIds, None, None), user);
      r := Some(modified);
    }
  }
}
