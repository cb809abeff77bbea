# petApp-server in Dafny

A model of the server of a pet-owner dating app. The server is an Express and
socket.io backend over MongoDB. The model covers:

- **the conversation engine**: the socket relay (`join`, `message`,
  `message:read`, `typing`), the match routes (room list with unread counts,
  message pages, REST read receipts), and `like`, which finds or creates the
  match of a pair of users;
- **credentials**: the HTTP guard that reads a Bearer token and picks the user
  id from its claims, the socket handshake guard, and the claims that login
  and registration sign;
- **the CORS allow-list**: parsing the configured list and matching origins
  against exact and wildcard entries;
- **the REST routes**:
  - pets and walks, with the walk schema's `endedAt` rule;
  - reports;
  - the discovery feed;
  - registration and login, profile edits, password change and profile
    photos;
  - the photo library.

The collections (matches, messages, users, pets, walks, photos, reports) are
sequences held by classes:

| class | collections |
|---|---|
| `ChatServer.Server` | matches, messages, and the log of emitted events |
| `PetCare.Store` | pets and walks |
| `Accounts.Directory` | users |
| `Photos.Library` | photos |
| `Reports.Desk` | reports |

Each route handler that writes is a method. Its checks come from a pure
function, and its `ensures` gives the new collection in terms of that
function. The properties the routes promise are proved about those functions,
as `ensures` clauses and lemmas.

The following are parameters:

- the clock and new document ids: `now`, `freshId`;
- date parsing: `parse`;
- password hashing: `hash`, `compare`;
- token verification: `verify`;
- the image store's answers: `CloudResult`, `upload`, `urlPath`.

An ObjectId is its canonical text: 24 lower-case hexadecimal digits. A request
whose id does not cast fails as MongoDB fails it. That is a 500, with the
status each route's catch or the server's error handler gives.

Modules:

| file | module | models |
|---|---|---|
| `base.dfy` | `Base` | JavaScript values, truthiness, `||`, `String(v)`, `Number(v)`, `trim`, `split`, and MongoDB's `limit`, `$addToSet`, `$pull` |
| `sorting.dfy` | `Sorting` | `.sort({ field: -1 })` |
| `chat_model.dfy` | `ChatModel` | the Match and Message records and the pure store logic: read receipts, unread counts, pages, pairs |
| `chat_server.dfy` | `ChatServer` | connections and the conversation server |
| `auth.dfy` | `Auth` | the HTTP guard, the socket guard, and issued tokens |
| `cors.dfy` | `Cors` | `parseOrigins` and `isAllowedOrigin` |
| `petcare.dfy` | `PetCare` | pets and walks |
| `accounts.dfy` | `Accounts` | registration, login, profile and profile photos |
| `photos.dfy` | `Photos` | the photo library |
| `discover.dfy` | `Discover` | the discovery feed |
| `reports.dfy` | `Reports` | reports |

## Model

| member | source | states |
|---|---|---|
| ChatModel.AttachmentKindOf | models/Message.js:10-16 | an attachment kind is "image" or "file", "file" when absent; any other value is refused |
| ChatModel.CreateMessage | models/Message.js:4-22 | a message needs `match` and `from`; its text is stored trimmed, `seenBy` defaults to empty, there are no attachments, and it is stamped with the clock |
| ChatModel.CreateKeepsTrimmedText | models/Message.js:8 | the schema trim leaves an already-trimmed text unchanged |
| ChatModel.AppendMessageKeepsStore | models/Message.js:19-21 | a message with a new id and a time no earlier than any stored one keeps ids unique, creation order and `seenBy` duplicate-free |
| ChatModel.InsertMatch | models/Match.js:4-15 | a new match is refused only for a duplicate `_id` or a present, duplicate `roomId` (sparse unique index); absent room codes never conflict; both indexes stay unique |
| ChatModel.InsertAllowsDuplicatePair | models/Match.js:15 | the `users` index is not unique: a second match for a stored pair is accepted |
| ChatModel.WithLastMessage | socket/index.js:63-65 | saving `lastMessage` points exactly that match at the message and bumps its `updatedAt`; other matches and every store invariant are kept |
| ChatModel.FindMatch | socket/index.js:52 | the lookup finds the match with that id iff one exists |
| ChatModel.FindByRoomId | routes/matches.js:60 | the room-code lookup finds a match with that code, or none has it |
| ChatModel.Resolve | routes/matches.js:57-63 | an ObjectId reference is the match id as it is; any other reference resolves to the id of the match with that room code, or to nothing ("bad id") |
| ChatModel.AliasEquivalence | routes/matches.js:57-63 | a room code and its match's id resolve to the same match |
| ChatModel.MarkAll | socket/index.js:113-116 | the `$addToSet` update applies to every message one by one and keeps the collection's length |
| ChatModel.MarkAllFrame | socket/index.js:113-116 | the update changes only `seenBy` of selected messages, where it adds the reader once; unselected messages are untouched |
| ChatModel.ModifiedAppend | socket/index.js:126 | `modifiedCount` counts exactly the selected messages that did not yet list the reader |
| ChatModel.MarkAllKeepsStore | socket/index.js:113-116 | the update keeps unique ids, creation order and duplicate-free `seenBy` |
| ChatModel.MarkAllIdempotent | socket/index.js:113-116 | a repeated identical update changes nothing and reports 0 |
| ChatModel.ModifiedNoneLeft | socket/index.js:126 | when every selected message already lists the reader, the count is 0 |
| ChatModel.UnreadAfterMark | routes/matches.js:104-127 | the count reported by a read equals the drop in the reader's unread count for that match |
| ChatModel.MarkingAllClearsUnread | routes/matches.js:117-126 | marking every message others sent in the match leaves `unreadLeft` at 0 |
| ChatModel.UnreadAppend | routes/matches.js:33-38 | a new message adds one to a user's unread count iff it is in the match, from someone else, and not seen by the user |
| ChatModel.MarkSeenAgreesOnOwnMatch | models/Message.js:28-33 | `markSeen` agrees with the handlers' filtered update when every listed id is another user's message of the match |
| ChatModel.MarkSeenCrossesMatches | models/Message.js:28-33 | unlike the handlers (socket/index.js:114), `markSeen` marks a listed message of another match |
| ChatModel.MatchHistory | routes/matches.js:66-67 | the candidate messages are exactly the match's messages created before `before`, in creation order |
| ChatModel.PageLimit | routes/matches.js:65-71 | the page size defaults to 30 and is capped at 100 for a positive limit; a limit of 0 means no limit |
| ChatModel.MessagePage | routes/matches.js:65-74 | every listed message belongs to the match and predates `before` |
| ChatModel.PageProperties | routes/matches.js:65-74 | the page is the newest `limit` candidates, oldest first, and never more than the cap |
| ChatModel.ZeroLimitReturnsEverything | routes/matches.js:71 | `limit=0` returns the whole history: MongoDB reads a zero limit as none |
| ChatModel.NegativeLimitExceedsCap | routes/matches.js:71 | a limit below -100 passes the cap of 100 |
| ChatModel.MatchesOf | routes/matches.js:19 | the caller's matches are exactly those whose `users` include the caller |
| ChatModel.RoomList | routes/matches.js:19-47 | one room per match of the caller, newest activity first, each with its unread count |
| ChatModel.RoomListMembers | routes/matches.js:19-27 | a match is listed iff the caller is among its users |
| ChatModel.OwnMessagesNeverUnread | routes/matches.js:35 | the caller's own messages never count as unread |
| ChatModel.LexTotal | routes/matches-like.js:16 | code-unit string order is total |
| ChatModel.LexAntisymmetric | routes/matches-like.js:16 | code-unit string order is antisymmetric |
| ChatModel.SortPair | routes/matches-like.js:16 | `[me, you].sort()` holds the two ids, in code-unit order |
| ChatModel.SortPairSymmetric | routes/matches-like.js:16 | both orders of a pair give the same `users` array |
| ChatModel.FindByUsers | routes/matches-like.js:17 | the lookup by `users` finds a match with exactly that array, or none has it |
| ChatModel.LikeStep | routes/matches-like.js:12-21 | a self-like is 400 and an id that does not cast is 500, both storing nothing; for two distinct ObjectIds the stored match of the sorted pair is answered unchanged, or, when none is stored, exactly one new match with that pair and `freshId` is created (a `freshId` already taken fails the unique `_id` index); the store's unique indexes hold |
| ChatModel.LikeSymmetric | routes/matches-like.js:14-18 | liking A→B and B→A is the same request |
| ChatModel.LikeRepeat | routes/matches-like.js:17-20 | a repeated like, in either direction, returns the same match id and creates nothing |
| ChatModel.FindByUsersAppend | routes/matches-like.js:17-18 | after creating the pair's match, the lookup finds it |
| ChatModel.SortedPairsDetermined | routes/matches-like.js:16 | two sorted pairs with the same members are the same array |
| ChatModel.LikeKeepsOnePerPair | routes/matches-like.js:16-18 | with `like` as the only creator, sequential likes keep at most one match per unordered pair |
| ChatModel.AppendNewPair | routes/matches-like.js:18 | appending a match for a pair not yet stored keeps one match per pair |
| ChatModel.UnsortedPairIsDuplicated | models/Match.js:15 | a pair stored unsorted is not found by `like`, which then creates a second match for the same two users |
| ChatServer.RoomKinds | socket/index.js:26-39 | a match room starts with `match:` and a personal channel never does |
| ChatServer.ValidIds | routes/matches.js:100 | every id kept is an ObjectId, and a string is kept exactly when it is listed and is an ObjectId |
| ChatServer.ValidIdsKeepsValidList | routes/matches.js:100 | a list made only of ObjectIds passes the filter whole, item by item in order |
| ChatServer.RestReadIds | routes/matches.js:99-100 | an absent id list is empty; a list keeps its ObjectIds; anything else has no `filter` and fails |
| ChatServer.Connection.constructor | socket/index.js:16-26 | the connection runs under `String(user._id \|\| "")`; an empty id is dropped, any other joins `user:<id>` |
| ChatServer.Connection.SwitchMatchRoom | socket/index.js:38-42 | after the switch the socket is in the new match room and in all its non-match rooms, and in no other match room |
| ChatServer.Connection.LeaveMatchRooms | socket/index.js:38-40 | every `match:` room is left and no other room |
| ChatServer.Connection.Close | socket/index.js:21 | a closed socket is in no room |
| ChatServer.SendGate | socket/index.js:50-53 | a dropped socket, a non-ObjectId match id or a missing or blank text is ignored; a non-string text fails at `trim`; a non-ObjectId sender fails the cast; otherwise the sender must be a member, and the text is trimmed and non-empty |
| ChatServer.ReadGate | socket/index.js:103-110 | a non-ObjectId match id is ignored; a missing, non-array or empty id list is answered `updated: 0` before membership is checked; otherwise only a member's read goes ahead |
| ChatServer.RestReadGate | routes/matches.js:83-102 | in order: the caller id must cast (500), the reference must resolve (400), the match must exist (404), and the caller must be a member (403) |
| ChatServer.Server.constructor | routes/matches.js:109 | the server starts with empty stores, and `io` is registered or not |
| ChatServer.Server.Like | routes/matches-like.js:12-21 | the new match store and the answer are those of `LikeStep` |
| ChatServer.Server.Join | socket/index.js:29-45 | a member joins the match room, leaving all other match rooms, and gets `joined`; anything else changes nothing and emits nothing |
| ChatServer.Server.Send | socket/index.js:48-98 | an accepted send appends one message (trimmed text, seen by its sender) and points the match at it; it then acks `{serverId, clientTempId}` and emits `message:new` to the match room and `match:updated` to each member; refusals ack the error, and ignored events change nothing |
| ChatServer.Server.StoreMessage | socket/index.js:55-65 | the message is appended and its match's `lastMessage` and `updatedAt` are set |
| ChatServer.Server.NotifyMembers | socket/index.js:92-94 | one `match:updated` per member's personal channel, in member order |
| ChatServer.AddToSeen | socket/index.js:113-116 | the per-document loop yields exactly `MarkAll` of the messages, and its count is `Modified`, the number of selected messages that lacked the reader |
| ChatServer.Server.UpdateSeen | socket/index.js:113-116 | the store becomes `MarkAll` of the old store, keeps its invariants, and the count returned is `modifiedCount` |
| ChatServer.Server.MarkRead | socket/index.js:101-131 | an accepted read adds the reader to `seenBy` of its listed messages of the match sent by others; it broadcasts every requested id and acks the number changed |
| ChatServer.Server.Typing | socket/index.js:134-137 | any valid match id relays `{userId, isTyping: !!isTyping}` to the match room, without a membership check and without storing anything |
| ChatServer.Server.ListRooms | routes/matches.js:14-51 | the caller's rooms, newest first, each with its unread count; a non-ObjectId caller is 500 |
| ChatServer.Server.ListMessages | routes/matches.js:54-78 | a page of the resolved match's history for any caller, in creation order, strictly before a truthy `before` as `parse` reads it, at most 30 by default and at most 100 for a positive limit; 400 "bad id" when the reference does not resolve, then 500 when `before` is no date |
| ChatServer.Server.ReadRest | routes/matches.js:81-131 | after the gate, an empty id list changes nothing; otherwise the filtered update is applied, the broadcast happens only if `io` was registered, and `unreadLeft` is the caller's new unread count |
| ChatServer.Server.MarkSeen | models/Message.js:28-33 | the listed messages gain the user in `seenBy`, whatever their match or sender; an id that does not cast changes nothing |
| Auth.BearerToken | middleware/requireAuth.js:5-6 | a token exists iff the header starts exactly with "Bearer " and has more after it, and it is that remainder |
| Auth.ClaimedUserId | middleware/requireAuth.js:13-18 | the user id is the first truthy of `id`, `_id`, `userId`, `uid`, else `sub` if it is a string, else null |
| Auth.RequireAuth | middleware/requireAuth.js:4-30 | 401 "No token", 401 "Invalid token" on a failed verification, 401 "Invalid token payload" without a user id; otherwise the caller is that id |
| Auth.HeaderWord | socket/auth.js:7 | the second space-separated word of the header, without spaces |
| Auth.HandshakeToken | socket/auth.js:7 | `auth.token` when truthy, else the header's second word |
| Auth.SocketAuth | socket/auth.js:5-16 | the socket is admitted iff a token is present and verifies, and its user is `{_id, name}` of the claims |
| Auth.ConnectionUserId | socket/index.js:17 | a missing `_id` makes the connection's user id empty |
| Auth.IssuedClaims | routes/auth.js:10-16 | issued claims are `sub` and `id`, both the user id, and nothing else; a missing secret is an error |
| Auth.IssuedTokenPassesRequireAuth | routes/auth.js:12 | a token issued for a user passes the HTTP guard as that user |
| Auth.IssuedTokenDroppedBySocket | socket/auth.js:11 | the same token opens a socket that is dropped, because the socket guard reads `_id`, which is never signed |
| Cors.ParseOrigins | server.js:39-43 | the entries are trimmed, non-empty and comma-free |
| Cors.ParseAbsent | server.js:40 | an unset value gives the empty list |
| Cors.ParseOriginsRoundTrip | server.js:39-43 | a list of clean origins written comma-separated parses back to itself |
| Cors.CleanParts | server.js:42-43 | an entry is kept iff it is the non-empty trim of some part |
| Cors.AllowList | server.js:46-48 | `CORS_ORIGINS` when set and non-empty, else `CORS_ORIGIN` |
| Cors.LiteralPattern | server.js:58-59 | a pattern without `*` matches exactly itself |
| Cors.OneWildcard | server.js:58-60 | `p*q` matches exactly `p + f + q` where `f` has no line terminator |
| Cors.SomePatternMatches | server.js:55-61 | true iff some entry containing `*` matches the whole origin |
| Cors.IsAllowedOrigin | server.js:51-62 | an absent or empty origin and a listed origin are allowed; any other origin is allowed iff a wildcard entry matches it |
| Cors.LiteralEntriesAreExact | server.js:56-61 | with no wildcard entries, an unlisted origin is refused |
| PetCare.PetKind | routes/pets.js:14 | the type, or `species` when the type is falsy; truthy iff either is |
| PetCare.PetAge | routes/pets.js:26-29 | undefined, null and "" give no age; anything else is `Number(age)`, and NaN fails the save |
| PetCare.NewPet | routes/pets.js:11-33 | 400 iff the name or type is falsy; the save fails (500) for a non-ObjectId owner, an empty trimmed name or type, or a NaN age; a stored pet has a trimmed name, a trimmed lower-case type and a trimmed bio or "" |
| PetCare.AppendPetKeepsStore | models/Pet.js:4-13 | a valid pet with a new id keeps the pet store valid |
| PetCare.Store.CreatePet | routes/pets.js:22 | the pet `NewPet` describes is appended; nothing is stored on a failure |
| PetCare.Store.ListPets | routes/pets.js:43-48 | exactly the caller's pets, newest first; a non-ObjectId caller fails the cast |
| PetCare.Store.DeletePet | routes/pets.js:51-76 | 400 for a non-ObjectId id; otherwise the pet with that id is removed, whoever owns it, or 404; every other pet is kept |
| PetCare.ParseDate | routes/walks.js:11-15 | a falsy value is no date; anything else is what the parser gives |
| PetCare.ListQuery | routes/walks.js:25-45 | 400 for a present non-ObjectId `petId`, an unparsable `from` or an unparsable `to`; otherwise the query is the caller, the optional pet and the optional bounds |
| PetCare.FilterWalks | routes/walks.js:41-47 | a walk is selected iff it matches the owner, the pet and both inclusive bounds |
| PetCare.WalkList | routes/walks.js:47-48 | exactly the selected walks, all the caller's, by `startedAt` descending |
| PetCare.ListedWalks | routes/walks.js:41-45 | a walk of the caller starting exactly at `from` is listed |
| PetCare.Store.ListWalks | routes/walks.js:23-56 | a query error is passed through; a non-ObjectId caller is 500 "Failed to load walks"; otherwise the walk list |
| PetCare.Amount | routes/walks.js:94-95 | the stored distance or duration is never negative, and it is non-zero iff the input is a positive number |
| PetCare.NewWalk | routes/walks.js:67-106 | 400 for a non-ObjectId or unknown pet, an unparsable `startedAt` or `endedAt`, or `endedAt` before `startedAt`; `startedAt` defaults to now; a stored walk satisfies the schema's rules |
| PetCare.WalkForAnotherOwnersPet | routes/walks.js:81 | the pet check does not look at its owner: a walk for another user's pet is accepted |
| PetCare.Store.CreateWalk | routes/walks.js:97-108 | the walk `NewWalk` describes is appended; nothing is stored on a failure |
| PetCare.Store.DeleteWalk | routes/walks.js:120-137 | 400 for a non-ObjectId id; only the caller's walk with that id is removed, else 404; other owners' walks are kept; a caller id that does not cast gives 500 "Failed to delete walk" |
| PetCare.Store.RemovePetAt | routes/pets.js:61-64 | removing one pet keeps every pet with another id and the store's rules |
| PetCare.Store.RemoveWalkAt | routes/walks.js:127 | removing one walk keeps every walk with another id and the store's rules |
| Accounts.KindOf | models/User.js:7 | a photo type is one of "owner_face", "pet", "other" |
| Accounts.GetUserId | routes/users.js:21-30 | the first truthy of `user.sub`, `user.id`, `user._id`, `userId`, else null |
| Accounts.GuardedUserId | middleware/requireAuth.js:23-24 | behind the HTTP guard, `getUserId` returns the guard's user id |
| Accounts.NormalEmail | routes/auth.js:24 | a string email is trimmed and lower-cased; anything else is "" |
| Accounts.NormalEmailIdempotent | routes/auth.js:24-53 | a stored email is trimmed with no upper-case letter, and normalising it again changes nothing |
| Accounts.NormalName | routes/auth.js:25 | a string name is trimmed; anything else is "" |
| Accounts.Login | routes/auth.js:50-72 | 400 without email or password; 400 "invalid credentials" for an unknown email or a wrong password; on success the user is the email's owner, the password matched, and the claims are the issued ones |
| Accounts.LoginHidesUnknownEmail | routes/auth.js:59-62 | an unknown email and a wrong password get the same answer |
| Accounts.Registration | routes/auth.js:23-35 | 400 unless email, password and name are present; 409 for an email in use; otherwise a user with the normalised email and name, the hashed password and an unused email |
| Accounts.AppendUserKeepsStore | models/User.js:14 | a new user with a fresh id and an unused email keeps the ids and the email index unique |
| Accounts.Directory.Register | routes/auth.js:21-45 | the user `Registration` describes is stored; the token is signed afterwards, so a missing secret answers 500 with the user stored |
| Accounts.RegisteredUserCanLogIn | routes/auth.js:35-64 | someone who just registered logs in with the same email and password as the same user |
| Accounts.EmailIndexAppend | routes/auth.js:58 | a user appended with a new email is found by that email |
| Accounts.Directory.Me | routes/users.js:36-44 | the caller's user, 404 when missing, 500 for an id that does not cast |
| Accounts.FirstFive | routes/users.js:65-67 | an array keeps its first five items; other values are unchanged |
| Accounts.Position | routes/users.js:51 | every profile field appears in the whitelist, at the index returned |
| Accounts.PatchFields | routes/users.js:52-67 | exactly the whitelisted fields the body defines are copied; a string name is trimmed, and interests keep their first five |
| Accounts.Directory.SetProfile | routes/users.js:69 | the update merges the fields into one user's profile and changes nothing else |
| Accounts.Directory.Patch | routes/users.js:50-88 | 404 "사용자 없음" for a missing user; otherwise each whitelisted field the body defines replaces the stored one, a string name trimmed and an array of interests cut to its first five, and other fields and users are kept; the answer fills the defaults |
| Accounts.PatchView | routes/users.js:75-84 | the answer gives "" for a missing string, null for a missing birth year and [] for missing interests |
| Accounts.PutFields | routes/users.js:96-104 | a field is set iff its guard passes: name and phone trimmed strings, about and goal strings, interests an array cut to five, birth year any defined value |
| Accounts.PutValueTyped | routes/users.js:99-104 | every value PUT sets has the type its guard demands |
| Accounts.Directory.Put | routes/users.js:94-117 | `$set` of the guarded fields on the caller, or 404 |
| Accounts.Directory.ChangePassword | routes/users.js:123-148 | 400 without both passwords, 404 without the user, 401 for a wrong current password; success replaces only the hash |
| Accounts.Directory.AddProfilePhoto | routes/users.js:156-200 | 400 without a file, then 500 for a caller id that does not cast, then 404 "User not found" without the user, then 500 when the type (default "pet") is not an enum value; a failure stores nothing; otherwise exactly one entry is appended to that user's photos and nothing else changes |
| Accounts.PullPhoto | routes/users.js:214-217 | `$pull` keeps exactly the entries with another public id |
| Accounts.Directory.PullProfilePhotos | routes/users.js:214-217 | one user's photos lose the entries with that public id, and nothing else changes |
| Accounts.Directory.PushProfilePhoto | routes/photos.js:81-85 | one user's photos gain the entry, and nothing else changes; a missing user is no error |
| Accounts.Directory.RemoveProfilePhoto | routes/users.js:206-223 | the caller's entries with that public id are pulled and nothing else in the store changes; a missing user is no error; an id that does not cast fails |
| Photos.ProfileFilterUnanchored | routes/users.js:15 | the profile upload's unanchored filter admits a MIME type that the library's anchored filter (routes/photos.js:20) refuses |
| Photos.NormalKind | routes/photos.js:57-58 | the trimmed type when it is an enum value, else "other" |
| Photos.FileName | routes/photos.js:63-66 | the original name, else the store's file name, else the URL's last path segment, which has no `/`; an unparsable URL fails |
| Photos.NewPhoto | routes/photos.js:54-78 | 400 without a file; the save needs an owner, an original name, a MIME type and a URL (500 otherwise); a stored photo's file name is its original name |
| Photos.Library.Upload | routes/photos.js:51-105 | the photo `NewPhoto` describes is stored; its entry without a public id is pushed to the owner's photos; the answer has no public id |
| Photos.Library.Store | routes/photos.js:69-78 | the photo is appended and the library's rules hold |
| Photos.Library.List | routes/photos.js:111-117 | exactly the caller's photos, newest first |
| Photos.Library.Delete | routes/photos.js:123-154 | only the caller's photo is found (404 otherwise); the entries without a public id are pulled from the caller's photos and the photo is removed; other owners' photos are kept |
| Photos.PullByMissingIdTakesAllUploads | routes/photos.js:142-146 | deleting one library photo pulls the entries of every library upload of that user |
| Photos.Library.RemovePhotoAt | routes/photos.js:148 | removing one photo keeps all others |
| Discover.CardLimit | routes/discover.js:12 | never 0 and never above 50, and 20 by default; a negative number is kept |
| Discover.Candidates | routes/discover.js:14-17 | exactly the users other than the caller with an "owner_face" photo |
| Discover.CardPhotos | routes/discover.js:25-27 | exactly the face and pet photos, as url and type |
| Discover.CardOf | routes/discover.js:22-30 | the user's id; the name, or "이름 없음" when falsy; only face and pet photos, including a face photo; no age or breed |
| Discover.Discover | routes/discover.js:9-36 | as many cards as the limit lets the cursor read, the i-th being the card of the i-th candidate in store order, one card per candidate; 500 for a caller id that does not cast |
| Discover.DiscoverBounded | routes/discover.js:12-19 | a non-negative limit gives at most 50 cards, and never the caller's own |
| Discover.NegativeLimitPassesCap | routes/discover.js:12-19 | `limit=-80` returns 80 cards |
| Reports.Evidences | routes/reports.js:36-48 | no files give no URLs; otherwise one URL per file in file order, and one failed upload fails the request |
| Reports.EvidenceList | routes/reports.js:65 | the first 20 items of an array, else none |
| Reports.NewReport | routes/reports.js:55-67 | 400 unless target id and reason are truthy; the save fails for a non-ObjectId owner or an empty required string; the category defaults to "기타"; the status is "received" |
| Reports.TruthyButEmptyTarget | routes/reports.js:58-62 | `[""]` passes the 400 check and then fails the required-path validation |
| Reports.ListLimit | routes/reports.js:80 | between 1 and 100, 20 by default |
| Reports.MyReports | routes/reports.js:78-89 | the caller's reports only, newest first, as many as the limit, and no unlisted report of the caller is newer than a listed one |
| Reports.ListStartsWithNewest | routes/reports.js:81-83 | no report of the caller is newer than the first one listed |
| Reports.Desk.File | routes/reports.js:55-72 | the report `NewReport` describes is stored; nothing is stored on a failure |
| Reports.Desk.List | routes/reports.js:78-89 | at most 100 of the caller's reports, newest first |
| Reports.FiledReportListed | routes/reports.js:60-84 | a report just filed is first in its owner's list |
| Sorting.SortDesc | routes/walks.js:48 | the result is sorted by the key, descending, and is a permutation of the input |
| Sorting.InsertAddsOne | routes/walks.js:48 | placing one document into a sorted list adds exactly that document and loses none |
| Base.MongoLimit | routes/matches.js:71 | `limit(0)` is no limit and `limit(-n)` reads `n` |
| Base.AddToSet | socket/index.js:115 | the user is in the set afterwards, once |

## Left out

- Mongoose casting is reduced to "an id is 24 lower-case hexadecimal digits". Upper-case hex and 12-byte strings, which MongoDB also accepts, are not modelled. Casting of profile values and of `evidenceUrls` elements is not modelled either.
- Numbers are integers:
  - fractional limits, distances and `Number("1e3")` forms are not modelled;
  - `Number` on strings covers blanks and optionally signed decimal digits, and every other string is NaN;
  - date parsing is the parameter `parse`, and timestamps are integers.
- `toLowerCase` lower-cases ASCII letters only.
- Concurrency is not modelled. The find-then-create race in `like` cannot occur in a sequential model, so at most one match per pair is proved only for sequential calls.
- The remote image store and multer are outside the model:
  - Cloudinary uploads and destroys;
  - multer buffering and size limits;
  - multer's rejections. These reach the server's error handler (server.js:139-142) as a 500 instead of the routes' own catch.
- Photos.Library.Delete: the remote destroy is not modelled. The route never reaches it, because stored photos have no public id.
- bcrypt and JWT internals are parameters (`hash`, `compare`, `verify`), and token expiry is not modelled. Logout (routes/auth.js:74) only answers `{ok: true}`.
- CORS patterns are taken as literal characters plus `*`. Other regular-expression metacharacters in an entry (server.js:58) are not modelled.
- Auth.BearerToken: "Bearer" is matched case-sensitively, as the code does. Section 2.1 of RFC 6750 treats the scheme name as case-insensitive.
- PetCare.Store.DeletePet: the model removes the pet with that id whoever owns it. `findByIdAndDelete` is passed a whole filter object, and how that object is cast is not modelled, so no ownership guarantee is claimed.
- Discover.CardOf: the cards' `age` and `breed` are always absent. `user.pets` holds pet ids, not pet documents (models/User.js:25).
- PetCare.NewWalk: route points are kept as given. The schema's required `lat`/`lng` on each point is not checked.
- ChatServer.Server.Send: the acknowledgement callback is taken to be present. Emitted payloads keep only the fields the properties speak about, and timestamps in payloads are the integer clock.
- Photos.Library.Delete: `$pull` with `publicId: undefined` is read as matching the entries without a public id. If the driver drops the undefined key instead, the pull removes every photo entry of the user.
- Photos.Library.List and PetCare.Store.ListPets: these routes have no `try`, so a failed cast leaves the request unanswered. The model answers 500 there.
- Answers are the stored records. The `.select` and `.populate` shaping of the room list (routes/matches.js:20-26), the walk list (routes/walks.js:49), the photo list (routes/photos.js:114) and the discovery query (routes/discover.js:18) is not modelled.
- Error bodies are reduced to a status and a message. Routes that hand errors to `next` answer with the server handler's `{error: message}` (server.js:139-142).
- Reports.Evidences: an upload failure keeps only its status, 500. Its message is the store's own.
- ChatServer.Server.ListMessages: `limit` arrives as an integer or absent. The `+limit` coercion of a query string is not modelled, so a non-numeric limit (NaN) is outside the model.
- ChatServer.Server.Send: the clock `now` is assumed never to go back (the method requires every stored message's `createdAt` to be at most `now`). The `Chronological` store invariant rests on it. So does reading "the newest messages" of a page from store order, where the route sorts by `createdAt`.
