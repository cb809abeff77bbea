/** The records of the messaging engine (models/Match.js, models/Message.js)
    and the queries and updates the socket handlers and the match routes run
    against the two collections, written as functions over the collections.
    A collection is a sequence in insertion order. */
module ChatModel {
  import opened Base
  import opened Sorting

  // ---------------------------------------------------------------------
  // Records

  /** models/Match.js: the pair of users, the last message, an optional
      room code and the two timestamps. */
  datatype Match = Match(
    id: Id,
    users: seq<Id>,
    lastMessage: Option<Id>,
    roomId: Option<string>,
    createdAt: int,
    updatedAt: int)

  datatype AttachmentKind = Image | File

  datatype Attachment = Attachment(kind: AttachmentKind, url: Option<string>, name: Option<string>, size: Option<int>)

  /** models/Message.js */
  datatype Message = Message(
    id: Id,
    matchId: Id,
    from: Id,
    text: string,
    attachments: seq<Attachment>,
    seenBy: seq<Id>,
    createdAt: int)

  /** The `kind` of an attachment: "image" or "file", "file" when absent;
      any other value fails validation. */
  function AttachmentKindOf(kind: Option<string>): (r: Option<AttachmentKind>)
    ensures kind.None? ==> r == Some(File)
    ensures r.Some? <==> (kind.None? || kind.value in {"image", "file"})
    ensures r == Some(Image) <==> kind == Some("image")
  {
    match kind
    case None => Some(File)
    case Some(k) => if k == "image" then Some(Image) else if k == "file" then Some(File) else None
  }

  /** `Message.create(...)`: `match` and `from` are required, `text` is
      stored trimmed, `seenBy` defaults to the empty list. */
  function CreateMessage(id: Id, matchRef: Option<Id>, from: Option<Id>, text: string,
                         seenBy: Option<seq<Id>>, now: int): (r: Option<Message>)
    ensures r.Some? <==> matchRef.Some? && from.Some?
    ensures r.Some? ==> r.value.id == id && r.value.matchId == matchRef.value && r.value.from == from.value
    ensures r.Some? ==> Trim(r.value.text) == r.value.text && r.value.text == Trim(text)
    ensures r.Some? ==> r.value.seenBy == (if seenBy.Some? then seenBy.value else [])
    ensures r.Some? ==> r.value.attachments == [] && r.value.createdAt == now
  {
    TrimIdempotent(text);
    if matchRef.None? || from.None? then None
    else Some(Message(id, matchRef.value, from.value, Trim(text), [],
                      if seenBy.Some? then seenBy.value else [], now))
  }

  /** The schema's trim has nothing left to do on a text that was trimmed
      before `create`. */
  lemma CreateKeepsTrimmedText(id: Id, matchId: Id, from: Id, text: string, seenBy: seq<Id>, now: int)
    requires Trim(text) == text
    ensures CreateMessage(id, Some(matchId), Some(from), text, Some(seenBy), now)
         == Some(Message(id, matchId, from, text, [], seenBy, now))
  {
  }

  // ---------------------------------------------------------------------
  // Store invariants

  predicate MatchIdsUnique(ms: seq<Match>)
  {
    forall i, j :: 0 <= i < j < |ms| ==> ms[i].id != ms[j].id
  }

  /** The sparse unique index on `roomId`: two present room codes differ;
      absent ones never conflict. */
  predicate RoomIdsUnique(ms: seq<Match>)
  {
    forall i, j :: 0 <= i < j < |ms| && ms[i].roomId.Some? && ms[j].roomId.Some? ==> ms[i].roomId != ms[j].roomId
  }

  predicate MessageIdsUnique(msgs: seq<Message>)
  {
    forall i, j :: 0 <= i < j < |msgs| ==> msgs[i].id != msgs[j].id
  }

  /** Insertion order agrees with `createdAt`. */
  predicate Chronological(msgs: seq<Message>)
  {
    forall i, j :: 0 <= i < j < |msgs| ==> msgs[i].createdAt <= msgs[j].createdAt
  }

  predicate SeenBySets(msgs: seq<Message>)
  {
    forall i :: 0 <= i < |msgs| ==> NoDup(msgs[i].seenBy)
  }

  /** A message stamped with a new id and a time no earlier than any
      stored one keeps the message collection's invariants. */
  lemma AppendMessageKeepsStore(msgs: seq<Message>, m: Message)
    requires MessageIdsUnique(msgs) && Chronological(msgs) && SeenBySets(msgs)
    requires forall i :: 0 <= i < |msgs| ==> msgs[i].id != m.id && msgs[i].createdAt <= m.createdAt
    requires NoDup(m.seenBy)
    ensures MessageIdsUnique(msgs + [m]) && Chronological(msgs + [m]) && SeenBySets(msgs + [m])
  {
  }

  predicate HasMatchId(ms: seq<Match>, id: Id)
  {
    exists i :: 0 <= i < |ms| && ms[i].id == id
  }

  /** `Match.create(doc)`: the unique indexes on `_id` and on `roomId`
      reject a duplicate; nothing stops two matches with the same `users`,
      because that index is not unique. */
  function InsertMatch(ms: seq<Match>, m: Match): (r: Option<seq<Match>>)
    ensures r.Some? <==> !HasMatchId(ms, m.id) && (m.roomId.None? || forall i :: 0 <= i < |ms| ==> ms[i].roomId != m.roomId)
    ensures r.Some? ==> r.value == ms + [m]
    ensures r.Some? && MatchIdsUnique(ms) ==> MatchIdsUnique(r.value)
    ensures r.Some? && RoomIdsUnique(ms) ==> RoomIdsUnique(r.value)
  {
    if HasMatchId(ms, m.id) then None
    else if m.roomId.Some? && exists i :: 0 <= i < |ms| && ms[i].roomId == m.roomId then None
    else Some(ms + [m])
  }

  /** The `users` index does not make pairs unique: a second match with
      the same users is accepted. */
  lemma InsertAllowsDuplicatePair(ms: seq<Match>, m: Match, newId: Id)
    requires m in ms && !HasMatchId(ms, newId)
    ensures InsertMatch(ms, m.(id := newId, roomId := None)).Some?
  {
  }

  /** `match.lastMessage = msgId; match.save()`: the match `id` now points
      at `msgId` and its `updatedAt` moves to `now`; every other match and
      every other field is as it was. */
  function WithLastMessage(ms: seq<Match>, id: Id, msgId: Id, now: int): (r: seq<Match>)
    ensures |r| == |ms|
    ensures forall i :: 0 <= i < |ms| ==>
      r[i].id == ms[i].id && r[i].users == ms[i].users && r[i].roomId == ms[i].roomId && r[i].createdAt == ms[i].createdAt
    ensures forall i :: 0 <= i < |ms| && ms[i].id == id ==> r[i].lastMessage == Some(msgId) && r[i].updatedAt == now
    ensures forall i :: 0 <= i < |ms| && ms[i].id != id ==> r[i] == ms[i]
    ensures MatchIdsUnique(ms) ==> MatchIdsUnique(r)
    ensures RoomIdsUnique(ms) ==> RoomIdsUnique(r)
    ensures SortedPairs(ms) ==> SortedPairs(r)
    ensures OnePerPair(ms) ==> OnePerPair(r)
  {
    seq(|ms|, i requires 0 <= i < |ms| => if ms[i].id == id then ms[i].(lastMessage := Some(msgId), updatedAt := now) else ms[i])
  }

  // ---------------------------------------------------------------------
  // Match lookups

  /** `Match.findById(id)` */
  function FindMatch(ms: seq<Match>, id: Id): (r: Option<Match>)
    ensures r.Some? ==> r.value in ms && r.value.id == id
    ensures r.None? <==> !HasMatchId(ms, id)
  {
    if ms == [] then None
    else if ms[0].id == id then Some(ms[0])
    else
      var r := FindMatch(ms[1..], id);
      assert HasMatchId(ms[1..], id) ==> HasMatchId(ms, id);
      assert HasMatchId(ms, id) ==> HasMatchId(ms[1..], id) by {
        if HasMatchId(ms, id) {
          var i :| 0 <= i < |ms| && ms[i].id == id;
          assert ms[1..][i - 1].id == id;
        }
      }
      r
  }

  /** `Match.findOne({ _id: id, users: user })` finds a document. */
  predicate IsMember(ms: seq<Match>, id: Id, user: Id)
  {
    FindMatch(ms, id).Some? && user in FindMatch(ms, id).value.users
  }

  /** `Match.findOne({ roomId })` */
  function FindByRoomId(ms: seq<Match>, roomId: string): (r: Option<Match>)
    ensures r.Some? ==> r.value in ms && r.value.roomId == Some(roomId)
    ensures r.None? ==> forall i :: 0 <= i < |ms| ==> ms[i].roomId != Some(roomId)
  {
    if ms == [] then None
    else if ms[0].roomId == Some(roomId) then Some(ms[0])
    else FindByRoomId(ms[1..], roomId)
  }

  /** The route-level reference resolution (routes/matches.js:57-63 and
      86-91): an ObjectId is taken as the match id as it is, anything else
      is looked up as a room code; `None` is the "bad id" answer. */
  function Resolve(ms: seq<Match>, reference: string): (r: Option<Id>)
    ensures IsObjectId(reference) ==> r == Some(reference)
    ensures !IsObjectId(reference) ==>
      (r.Some? <==> exists i :: 0 <= i < |ms| && ms[i].roomId == Some(reference))
    ensures !IsObjectId(reference) && r.Some? ==> exists i :: 0 <= i < |ms| && ms[i].roomId == Some(reference) && ms[i].id == r.value
  {
    if IsObjectId(reference) then Some(reference)
    else
      match FindByRoomId(ms, reference)
      case Some(m) => Some(m.id)
      case None => None
  }

  /** A room code and the id it stands for resolve to the same match. */
  lemma {:induction false} AliasEquivalence(ms: seq<Match>, k: nat)
    requires k < |ms| && RoomIdsUnique(ms)
    requires ms[k].roomId.Some? && !IsObjectId(ms[k].roomId.value) && IsObjectId(ms[k].id)
    ensures Resolve(ms, ms[k].roomId.value) == Some(ms[k].id) == Resolve(ms, ms[k].id)
  {
    var alias := ms[k].roomId.value;
    var r := Resolve(ms, alias);
    var i :| 0 <= i < |ms| && ms[i].roomId == Some(alias) && ms[i].id == r.value;
    assert ms[i].roomId == ms[k].roomId;
  }

  // ---------------------------------------------------------------------
  // Read receipts

  /** The filter of a `Message.updateMany`: listed ids, optionally one
      match, optionally excluding one sender. */
  datatype Selector = Selector(ids: seq<Id>, inMatch: Option<Id>, notFrom: Option<Id>)

  predicate Selected(m: Message, sel: Selector)
  {
    && m.id in sel.ids
    && (sel.inMatch.Some? ==> m.matchId == sel.inMatch.value)
    && (sel.notFrom.Some? ==> m.from != sel.notFrom.value)
  }

  /** The filter of the read handlers (socket/index.js:114 and
      routes/matches.js:105). */
  function ReadSelector(ids: seq<Id>, matchId: Id, reader: Id): Selector
  {
    Selector(ids, Some(matchId), Some(reader))
  }

  function MarkOne(m: Message, sel: Selector, user: Id): (r: Message)
  {
    if Selected(m, sel) then m.(seenBy := AddToSet(m.seenBy, user)) else m
  }

  /** `updateMany(filter, { $addToSet: { seenBy: user } })` */
  function MarkAll(msgs: seq<Message>, sel: Selector, user: Id): (r: seq<Message>)
    ensures |r| == |msgs|
    ensures forall i :: 0 <= i < |msgs| ==> r[i] == MarkOne(msgs[i], sel, user)
  {
    seq(|msgs|, i requires 0 <= i < |msgs| => MarkOne(msgs[i], sel, user))
  }

  /** A message the update actually changes. */
  predicate Changes(m: Message, sel: Selector, user: Id)
  {
    Selected(m, sel) && user !in m.seenBy
  }

  /** `modifiedCount` of the update. */
  function Modified(msgs: seq<Message>, sel: Selector, user: Id): nat
  {
    if msgs == [] then 0
    else (if Changes(msgs[0], sel, user) then 1 else 0) + Modified(msgs[1..], sel, user)
  }

  /** A message of `matchId` that `user` has not read: sent by someone else
      and without `user` in `seenBy` (routes/matches.js:33-38, 117-121). */
  predicate UnreadBy(m: Message, matchId: Id, user: Id)
  {
    m.matchId == matchId && m.from != user && user !in m.seenBy
  }

  function Unread(msgs: seq<Message>, matchId: Id, user: Id): nat
  {
    if msgs == [] then 0
    else (if UnreadBy(msgs[0], matchId, user) then 1 else 0) + Unread(msgs[1..], matchId, user)
  }

  /** What the update touches: `seenBy` of the selected messages, which
      gains `user` and keeps all it had. */
  lemma MarkAllFrame(msgs: seq<Message>, sel: Selector, user: Id, i: nat)
    requires i < |msgs|
    ensures var m, n := msgs[i], MarkAll(msgs, sel, user)[i];
      n.id == m.id && n.matchId == m.matchId && n.from == m.from && n.text == m.text
      && n.createdAt == m.createdAt && n.attachments == m.attachments
      && (Selected(m, sel) ==> user in n.seenBy && forall u :: u in n.seenBy <==> u in m.seenBy || u == user)
      && (!Selected(m, sel) ==> n == m)
  {
  }

  /** The count grows by one for each appended message the update
      changes; the update's loop counts this way. */
  lemma {:induction false} ModifiedAppend(msgs: seq<Message>, m: Message, sel: Selector, user: Id)
    ensures Modified(msgs + [m], sel, user) == Modified(msgs, sel, user) + (if Changes(m, sel, user) then 1 else 0)
  {
    if msgs != [] {
      assert (msgs + [m])[1..] == msgs[1..] + [m];
      ModifiedAppend(msgs[1..], m, sel, user);
    }
  }

  /** The update keeps the store invariants of the message collection. */
  lemma MarkAllKeepsStore(msgs: seq<Message>, sel: Selector, user: Id)
    ensures MessageIdsUnique(msgs) ==> MessageIdsUnique(MarkAll(msgs, sel, user))
    ensures Chronological(msgs) ==> Chronological(MarkAll(msgs, sel, user))
    ensures SeenBySets(msgs) ==> SeenBySets(MarkAll(msgs, sel, user))
  {
  }

  /** A second identical update changes nothing and reports 0. */
  lemma {:induction false} MarkAllIdempotent(msgs: seq<Message>, sel: Selector, user: Id)
    ensures MarkAll(MarkAll(msgs, sel, user), sel, user) == MarkAll(msgs, sel, user)
    ensures Modified(MarkAll(msgs, sel, user), sel, user) == 0
  {
    var once := MarkAll(msgs, sel, user);
    assert forall i :: 0 <= i < |msgs| ==> MarkOne(once[i], sel, user) == once[i];
    ModifiedNoneLeft(once, sel, user);
  }

  lemma {:induction false} ModifiedNoneLeft(msgs: seq<Message>, sel: Selector, user: Id)
    requires forall i :: 0 <= i < |msgs| ==> Selected(msgs[i], sel) ==> user in msgs[i].seenBy
    ensures Modified(msgs, sel, user) == 0
  {
    if msgs != [] {
      ModifiedNoneLeft(msgs[1..], sel, user);
    }
  }

  /** The reported count is exactly the drop in the reader's unread count:
      every changed message was unread and is now read, and nothing else
      moves. */
  lemma {:induction false} UnreadAfterMark(msgs: seq<Message>, ids: seq<Id>, matchId: Id, reader: Id)
    ensures var sel := ReadSelector(ids, matchId, reader);
      Unread(MarkAll(msgs, sel, reader), matchId, reader) + Modified(msgs, sel, reader) == Unread(msgs, matchId, reader)
  {
    var sel := ReadSelector(ids, matchId, reader);
    if msgs != [] {
      UnreadAfterMark(msgs[1..], ids, matchId, reader);
      assert MarkAll(msgs, sel, reader)[1..] == MarkAll(msgs[1..], sel, reader);
    }
  }

  /** Marking every listed message of the match leaves nothing unread. */
  lemma {:induction false} MarkingAllClearsUnread(msgs: seq<Message>, ids: seq<Id>, matchId: Id, reader: Id)
    requires forall i :: 0 <= i < |msgs| && msgs[i].matchId == matchId && msgs[i].from != reader ==> msgs[i].id in ids
    ensures Unread(MarkAll(msgs, ReadSelector(ids, matchId, reader), reader), matchId, reader) == 0
  {
    if msgs != [] {
      MarkingAllClearsUnread(msgs[1..], ids, matchId, reader);
      assert MarkAll(msgs, ReadSelector(ids, matchId, reader), reader)[1..]
          == MarkAll(msgs[1..], ReadSelector(ids, matchId, reader), reader);
    }
  }

  /** Unread counts only grow by appending, and an appended message
      counts for a reader exactly when it is unread by that reader. */
  lemma {:induction false} UnreadAppend(msgs: seq<Message>, m: Message, matchId: Id, user: Id)
    ensures Unread(msgs + [m], matchId, user) == Unread(msgs, matchId, user) + (if UnreadBy(m, matchId, user) then 1 else 0)
  {
    if msgs != [] {
      assert (msgs + [m])[1..] == msgs[1..] + [m];
      UnreadAppend(msgs[1..], m, matchId, user);
    }
  }

  /** `markSeen` (models/Message.js:28-33) selects by id alone; where every
      listed message belongs to the match and was sent by someone else it
      agrees with the handlers' update. */
  lemma MarkSeenAgreesOnOwnMatch(msgs: seq<Message>, ids: seq<Id>, matchId: Id, reader: Id)
    requires forall i :: 0 <= i < |msgs| && msgs[i].id in ids ==> msgs[i].matchId == matchId && msgs[i].from != reader
    ensures MarkAll(msgs, Selector(ids, None, None), reader) == MarkAll(msgs, ReadSelector(ids, matchId, reader), reader)
  {
  }

  /** ...and where a listed message belongs to another match, `markSeen`
      marks it while the handlers' update leaves it alone. */
  lemma MarkSeenCrossesMatches(msgs: seq<Message>, ids: seq<Id>, matchId: Id, reader: Id, k: nat)
    requires k < |msgs| && msgs[k].id in ids && msgs[k].matchId != matchId && reader !in msgs[k].seenBy
    ensures reader in MarkAll(msgs, Selector(ids, None, None), reader)[k].seenBy
    ensures reader !in MarkAll(msgs, ReadSelector(ids, matchId, reader), reader)[k].seenBy
  {
  }

  // ---------------------------------------------------------------------
  // Message history (routes/matches.js:65-74)

  predicate InPage(m: Message, matchId: Id, before: Option<int>)
  {
    m.matchId == matchId && (before.Some? ==> m.createdAt < before.value)
  }

  /** `Message.find({ match, createdAt: { $lt: before } })`, in store order. */
  function MatchHistory(msgs: seq<Message>, matchId: Id, before: Option<int>): (r: seq<Message>)
    ensures forall i :: 0 <= i < |r| ==> r[i] in msgs && InPage(r[i], matchId, before)
    ensures forall i :: 0 <= i < |msgs| && InPage(msgs[i], matchId, before) ==> msgs[i] in r
    ensures Chronological(msgs) ==> Chronological(r)
    ensures |r| <= |msgs|
  {
    if msgs == [] then []
    else
      var rest := MatchHistory(msgs[1..], matchId, before);
      assert forall i :: 1 <= i < |msgs| ==> msgs[i] == msgs[1..][i - 1];
      if InPage(msgs[0], matchId, before) then [msgs[0]] + rest else rest
  }

  /** The page size the route asks MongoDB for: `Math.min(+limit, 100)`
      with `limit` defaulting to 30, read the way a cursor reads it. */
  function PageLimit(limit: Option<int>): (r: Option<nat>)
    ensures limit.None? ==> r == Some(30)
    ensures limit.Some? && limit.value >= 1 ==> r == Some(Min(limit.value, 100))
    ensures limit == Some(0) ==> r.None?
  {
    MongoLimit(Min(if limit.Some? then limit.value else 30, 100))
  }

  /** The page: the latest matching messages, oldest first (`sort -1`,
      `limit`, `reverse`). */
  function MessagePage(msgs: seq<Message>, matchId: Id, before: Option<int>, limit: Option<int>): (r: seq<Message>)
    ensures forall i :: 0 <= i < |r| ==> r[i] in msgs && InPage(r[i], matchId, before)
  {
    TakeLast(MatchHistory(msgs, matchId, before), PageLimit(limit))
  }

  /** The page holds the newest `min(limit, 100)` messages of the match
      before `before` (30 without a limit), oldest first. */
  lemma PageProperties(msgs: seq<Message>, matchId: Id, before: Option<int>, limit: Option<int>)
    requires Chronological(msgs)
    ensures var h, r := MatchHistory(msgs, matchId, before), MessagePage(msgs, matchId, before, limit);
      && Chronological(r)
      && r == h[|h| - |r|..]
      && (limit.None? ==> |r| == Min(30, |h|))
      && (limit.Some? && limit.value >= 1 ==> |r| == Min(Min(limit.value, 100), |h|))
      && (forall i, j :: 0 <= i < |h| - |r| <= j < |h| ==> h[i].createdAt <= h[j].createdAt)
  {
  }

  /** A limit of 0 is not capped: MongoDB reads it as "no limit", so the
      whole history before `before` is returned. */
  lemma ZeroLimitReturnsEverything(msgs: seq<Message>, matchId: Id, before: Option<int>)
    ensures MessagePage(msgs, matchId, before, Some(0)) == MatchHistory(msgs, matchId, before)
  {
  }

  /** A negative limit is not capped either: `Math.min(-n, 100)` is `-n`,
      which a cursor reads as n. */
  lemma NegativeLimitExceedsCap(msgs: seq<Message>, matchId: Id, limit: int)
    requires limit < -100 && |MatchHistory(msgs, matchId, None)| >= -limit
    ensures |MessagePage(msgs, matchId, None, Some(limit))| == -limit > 100
  {
  }

  // ---------------------------------------------------------------------
  // Room list (routes/matches.js:14-51)

  datatype Room = Room(room: Match, unreadCount: nat)

  /** `Match.find({ users: user })` */
  function MatchesOf(ms: seq<Match>, user: Id): (r: seq<Match>)
    ensures forall m :: m in r <==> m in ms && user in m.users
    ensures |r| <= |ms|
  {
    Filter(ms, (m: Match) => user in m.users)
  }

  function UpdatedAt(m: Match): int { m.updatedAt }

  /** The rooms of `user`, newest activity first, each with its unread count. */
  function RoomList(ms: seq<Match>, msgs: seq<Message>, user: Id): (r: seq<Room>)
    ensures |r| == |MatchesOf(ms, user)|
    ensures forall i :: 0 <= i < |r| ==> r[i].unreadCount == Unread(msgs, r[i].room.id, user)
    ensures forall i, j :: 0 <= i < j < |r| ==> r[i].room.updatedAt >= r[j].room.updatedAt
  {
    var sorted := SortDesc(MatchesOf(ms, user), UpdatedAt);
    seq(|sorted|, i requires 0 <= i < |sorted| => Room(sorted[i], Unread(msgs, sorted[i].id, user)))
  }

  /** The room list holds exactly the caller's matches, each once per
      stored copy. */
  lemma RoomListMembers(ms: seq<Match>, msgs: seq<Message>, user: Id, m: Match)
    ensures (exists i :: 0 <= i < |RoomList(ms, msgs, user)| && RoomList(ms, msgs, user)[i].room == m)
       <==> m in ms && user in m.users
  {
    var sorted := SortDesc(MatchesOf(ms, user), UpdatedAt);
    SortDescMembers(MatchesOf(ms, user), UpdatedAt, m);
    var r := RoomList(ms, msgs, user);
    assert forall i :: 0 <= i < |r| ==> r[i].room == sorted[i];
    if m in sorted {
      var i :| 0 <= i < |sorted| && sorted[i] == m;
      assert r[i].room == m;
    }
  }

  /** A sender's own messages never count as unread for the sender. */
  lemma {:induction false} OwnMessagesNeverUnread(msgs: seq<Message>, matchId: Id, user: Id)
    requires forall i :: 0 <= i < |msgs| && msgs[i].matchId == matchId ==> msgs[i].from == user
    ensures Unread(msgs, matchId, user) == 0
  {
    if msgs != [] {
      OwnMessagesNeverUnread(msgs[1..], matchId, user);
    }
  }

  // ---------------------------------------------------------------------
  // Like (routes/matches-like.js)

  /** Code-unit order of JavaScript's default `Array.prototype.sort`. */
  predicate LexLe(a: string, b: string)
  {
    a == [] || (b != [] && (a[0] < b[0] || (a[0] == b[0] && LexLe(a[1..], b[1..]))))
  }

  lemma {:induction false} LexTotal(a: string, b: string)
    ensures LexLe(a, b) || LexLe(b, a)
  {
    if a != [] && b != [] && a[0] == b[0] {
      LexTotal(a[1..], b[1..]);
    }
  }

  lemma {:induction false} LexAntisymmetric(a: string, b: string)
    requires LexLe(a, b) && LexLe(b, a)
    ensures a == b
  {
    if a != [] && b != [] {
      LexAntisymmetric(a[1..], b[1..]);
      assert a == [a[0]] + a[1..] && b == [b[0]] + b[1..];
    }
  }

  /** `[me, you].sort()` */
  function SortPair(a: Id, b: Id): (r: seq<Id>)
    ensures |r| == 2 && multiset(r) == multiset{a, b} && LexLe(r[0], r[1])
  {
    LexTotal(a, b);
    if LexLe(a, b) then [a, b] else [b, a]
  }

  /** Both orders of the pair give the same `users` array. */
  lemma SortPairSymmetric(a: Id, b: Id)
    ensures SortPair(a, b) == SortPair(b, a)
  {
    if LexLe(a, b) && LexLe(b, a) { LexAntisymmetric(a, b); }
  }

  /** `Match.findOne({ users })`: the first match whose `users` array is
      exactly `users`. */
  function FindByUsers(ms: seq<Match>, users: seq<Id>): (r: Option<Match>)
    ensures r.Some? ==> r.value in ms && r.value.users == users
    ensures r.None? <==> forall i :: 0 <= i < |ms| ==> ms[i].users != users
  {
    if ms == [] then None
    else if ms[0].users == users then Some(ms[0])
    else
      assert forall i :: 1 <= i < |ms| ==> ms[i] == ms[1..][i - 1];
      FindByUsers(ms[1..], users)
  }

  /** `POST /like/:targetId`: refuse a self-like, otherwise find the match
      of the sorted pair or create it with the store-assigned id
      `freshId`. Ids that are not ObjectIds fail the query's cast (500). */
  function LikeStep(ms: seq<Match>, me: Id, you: Id, freshId: Id, now: int): (r: (Reply<Id>, seq<Match>))
    ensures me == you ==> r == (Fail(400, "self like not allowed"), ms)
    ensures me != you && (!IsObjectId(me) || !IsObjectId(you)) ==> r == (Fail(500, CastFailure), ms)
    ensures IsObjectId(me) && IsObjectId(you) && me != you && FindByUsers(ms, SortPair(me, you)).Some? ==>
              r == (Ok(FindByUsers(ms, SortPair(me, you)).value.id), ms)
    ensures IsObjectId(me) && IsObjectId(you) && me != you && FindByUsers(ms, SortPair(me, you)).None? ==>
              if HasMatchId(ms, freshId) then r == (Fail(500, "duplicate key"), ms)
              else r == (Ok(freshId), ms + [Match(freshId, SortPair(me, you), None, None, now, now)])
    ensures r.0.Fail? ==> r.1 == ms
    ensures r.0.Ok? ==> IsObjectId(me) && IsObjectId(you) && me != you
    ensures r.1 == ms || r.1 == ms + [Match(freshId, SortPair(me, you), None, None, now, now)]
    ensures r.0.Ok? ==> exists i :: 0 <= i < |r.1| && r.1[i].id == r.0.value && r.1[i].users == SortPair(me, you)
    ensures r.1 != ms ==> FindByUsers(ms, SortPair(me, you)).None?
    ensures MatchIdsUnique(ms) ==> MatchIdsUnique(r.1)
    ensures RoomIdsUnique(ms) ==> RoomIdsUnique(r.1)
  {
    if me == you then (Fail(400, "self like not allowed"), ms)
    else if !IsObjectId(me) || !IsObjectId(you) then (Fail(500, CastFailure), ms)
    else
      var users := SortPair(me, you);
      match FindByUsers(ms, users)
      case Some(m) =>
        var i :| 0 <= i < |ms| && ms[i] == m;
        (Ok(m.id), ms)
      case None =>
        var created := Match(freshId, users, None, None, now, now);
        match InsertMatch(ms, created)
        case Some(ms') =>
          assert ms'[|ms|] == created;
          (Ok(freshId), ms')
        case None => (Fail(500, "duplicate key"), ms)
  }

  /** Liking A→B and B→A is the same request. */
  lemma LikeSymmetric(ms: seq<Match>, a: Id, b: Id, freshId: Id, now: int)
    requires a != b
    ensures LikeStep(ms, a, b, freshId, now) == LikeStep(ms, b, a, freshId, now)
  {
    SortPairSymmetric(a, b);
  }

  /** A repeated like, in either direction, returns the same match and
      changes nothing. */
  lemma LikeRepeat(ms: seq<Match>, a: Id, b: Id, f1: Id, t1: int, f2: Id, t2: int)
    requires LikeStep(ms, a, b, f1, t1).0.Ok?
    ensures var (r1, ms1) := LikeStep(ms, a, b, f1, t1);
      LikeStep(ms1, a, b, f2, t2) == (r1, ms1) && LikeStep(ms1, b, a, f2, t2) == (r1, ms1)
  {
    var (r1, ms1) := LikeStep(ms, a, b, f1, t1);
    var users := SortPair(a, b);
    SortPairSymmetric(a, b);
    if FindByUsers(ms, users).None? {
      assert ms1 == ms + [Match(f1, users, None, None, t1, t1)];
      FindByUsersAppend(ms, users, ms1[|ms|]);
    }
  }

  lemma FindByUsersAppend(ms: seq<Match>, users: seq<Id>, m: Match)
    requires FindByUsers(ms, users).None? && m.users == users
    ensures FindByUsers(ms + [m], users) == Some(m)
  {
    if ms != [] {
      assert (ms + [m])[1..] == ms[1..] + [m];
      FindByUsersAppend(ms[1..], users, m);
    }
  }

  /** Every stored pair is in sorted order, as `like` stores it. */
  predicate SortedPairs(ms: seq<Match>)
  {
    forall i :: 0 <= i < |ms| ==> |ms[i].users| == 2 && ms[i].users == SortPair(ms[i].users[0], ms[i].users[1])
  }

  /** At most one match per unordered pair of users. */
  predicate OnePerPair(ms: seq<Match>)
  {
    forall i, j :: 0 <= i < j < |ms| ==> multiset(ms[i].users) != multiset(ms[j].users)
  }

  /** Two sorted pairs with the same members are the same array. */
  lemma SortedPairsDetermined(p: seq<Id>, q: seq<Id>)
    requires |p| == 2 && p == SortPair(p[0], p[1])
    requires |q| == 2 && q == SortPair(q[0], q[1])
    ensures multiset(p) == multiset(q) ==> p == q
  {
    if multiset(p) == multiset(q) {
      assert p[0] in multiset(q) && p[1] in multiset(q);
      assert multiset(p) - multiset{p[0]} == multiset{p[1]};
      assert multiset(q) - multiset{q[0]} == multiset{q[1]};
      if p[0] != q[0] {
        assert p[0] == q[1] && p[1] == q[0];
        SortPairSymmetric(p[0], p[1]);
      }
    }
  }

  /** With `like` the only creator of matches, sequential likes keep every
      unordered pair in at most one match. */
  lemma LikeKeepsOnePerPair(ms: seq<Match>, me: Id, you: Id, freshId: Id, now: int)
    requires SortedPairs(ms) && OnePerPair(ms)
    ensures SortedPairs(LikeStep(ms, me, you, freshId, now).1)
    ensures OnePerPair(LikeStep(ms, me, you, freshId, now).1)
  {
    var ms1 := LikeStep(ms, me, you, freshId, now).1;
    if ms1 != ms {
      var users := SortPair(me, you);
      var created := Match(freshId, users, None, None, now, now);
      assert ms1 == ms + [created];
      AppendNewPair(ms, created);
    }
  }

  lemma AppendNewPair(ms: seq<Match>, m: Match)
    requires SortedPairs(ms) && OnePerPair(ms)
    requires |m.users| == 2 && m.users == SortPair(m.users[0], m.users[1])
    requires FindByUsers(ms, m.users).None?
    ensures SortedPairs(ms + [m]) && OnePerPair(ms + [m])
  {
    var ms1 := ms + [m];
    assert SortedPairs(ms1) by {
      forall i | 0 <= i < |ms1|
        ensures |ms1[i].users| == 2 && ms1[i].users == SortPair(ms1[i].users[0], ms1[i].users[1])
      {
        if i < |ms| { assert ms1[i] == ms[i]; }
      }
    }
    forall i, j | 0 <= i < j < |ms1|
      ensures multiset(ms1[i].users) != multiset(ms1[j].users)
    {
      assert ms1[i] == ms[i];
      if j < |ms| {
        assert ms1[j] == ms[j];
      } else {
        SortedPairsDetermined(ms[i].users, m.users);
        assert ms[i].users != m.users;
      }
    }
  }

  /** The store itself does not keep pairs unique: a pair stored unsorted
      (by anything other than `like`) is not found, and `like` adds a
      second match for the same two users. */
  lemma UnsortedPairIsDuplicated(ms: seq<Match>, a: Id, b: Id, freshId: Id, now: int)
    requires IsObjectId(a) && IsObjectId(b) && a != b && LexLe(a, b)
    requires |ms| == 1 && ms[0].users == [b, a] && ms[0].id != freshId
    ensures var ms1 := LikeStep(ms, a, b, freshId, now).1;
      |ms1| == 2 && multiset(ms1[0].users) == multiset(ms1[1].users)
  {
    assert SortPair(a, b) == [a, b];
    assert !HasMatchId(ms, freshId);
  }
}
