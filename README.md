# Room-rental backend: chat lifecycle, presence and request guards in Dafny

This project models the core logic of a room-rental marketplace backend:

- **Chat over sockets** (`socket.js`). The process-wide presence map `users`
  records which socket each user joined through. A message store holds the
  `Message` documents. Four handlers change them, each modelled as one atomic
  step on the class `ChatSocket.ChatServer`:
  - `join` binds a user to a socket. It then delivers the user's queued `Sent`
    messages to that socket and marks them `Delivered`.
  - `sendMessage` stores a new message. The message is `Delivered` when the
    receiver is present in `users` and `Sent` otherwise. It is emitted to the
    receiver only when the receiver is present.
  - `markAsRead` moves a message to `Read` once.
  - `disconnect` removes every presence entry pointing at the closing socket.

  Emissions are appended to an outbox of `receiveMessage` records. The current
  time (`now`) and the fresh message id are parameters of the handlers.
- **The message record** (`models/messageModel.js`). It has a three-value
  status enum, the schema defaults (`status` is `Sent`, `timestamp` is the
  creation time) and the required fields. Each handler keeps a consistency
  invariant between the status and the two dates (`WellFormed`), and moves
  status only forward (`Advances`).
- **Chat history** (`routes/chatRoutes.js`). The route selects the messages
  between two users in either direction and sorts them by timestamp.
- **Public room filter** (`routes/publicRoutes.js`). The route builds a query
  object step by step from optional query-string parameters, including the
  comma split of `amenities`. The single-room route answers 404 for a missing
  or unavailable room.
- **Role guard** (`middleware/authRoleMiddleware.js`). The guard answers 403
  unless the user exists and holds one of the allowed roles. Combined with the
  `role` enum of `models/userModel.js`, it shows that the `["tenant"]` and
  `["landlord"]` guards (routes/tenantRoutes.js:8, routes/landlordRoutes.js:8)
  admit nobody.

Files: `common.dfy` (Option, ids, time), `message_model.dfy`, `socket.dfy`,
`chat_routes.dfy`, `public_routes.dfy`, `auth_role.dfy`.

Behaviour worth noting:

- A `Sent` message can go straight to `Read` (socket.js:61 checks only
  `!== "Read"`). Its `deliveredAt` then stays unset, so `Read` does not imply a
  delivery date. `ChatSocket.MarkReadSkipsDelivery` states this.
- `sendMessage` does not echo the message to the sender. It emits only to a
  present receiver.
- The `join` flush has no order: `Message.find` at socket.js:21-24 has no sort.
  `Join` takes the answer of that query as the parameter `found`, in any
  order, holding each pending id exactly once. The emitted notices follow
  that order.
- The code has no inbox summary or unread-count service, and no `lastSeen`
  broadcast on disconnect.
- The `location` and `category` filters of routes/publicRoutes.js:16-27 name
  `locationName` and `category`, which the room schema (models/roomModel.js)
  does not declare.

Modelling choices:

- A user id is absent from a payload when it is `None`. Mongoose's `required`
  check refuses a missing id and a missing or empty text, so `save` throws.
  `sendMessage` then stores and emits nothing.
- Socket ids are non-empty strings, as socket.io makes them. So the truthiness
  test `users[receiverId]` at socket.js:40 is the same as membership.
- The socket handlers keep the collection as a map from id to message. The
  history route reads it as a sequence in the database's scan order, and
  `ChatRoutes.ScanOrder` links the two: it lists one message per stored id, so
  a message held under several ids occurs that many times.
  Ties in timestamp keep scan order, which is one of the orders the database
  may return.
- The room filter is modelled up to the query object it hands to
  `Room.find`. A room is modelled only by its `isAvailable` flag, the one
  field the single-room route reads.

## Model

| member | source | states |
|---|---|---|
| MessageModel.ParseStatus | models/messageModel.js:8-12 | a status string is accepted exactly when it is "Sent", "Delivered" or "Read", and the accepted status names that string |
| MessageModel.StatusRoundTrip | models/messageModel.js:8-12 | each of the three statuses survives storing and re-reading its name |
| MessageModel.Create | models/messageModel.js:3-15 | saving succeeds exactly when sender, receiver and a non-empty text are given; a given timestamp, status, deliveredAt or readAt is stored as given; timestamp defaults to the creation time, status to Sent, and deliveredAt and readAt stay unset |
| ChatSocket.Unbind | socket.js:70-72 | no entry of the result points at the closed socket; every kept entry is an old one, unchanged; every old entry on another socket is kept |
| ChatSocket.UnbindEffect | socket.js:68-73 | after disconnect a user is present exactly when they were present on another socket, with the same socket; no entry points at the closed socket |
| ChatSocket.UnbindIdempotent | socket.js:70-72 | a second disconnect of the same socket changes nothing |
| ChatSocket.JoinThenUnbind | socket.js:17-72 | join then disconnect of the same socket leaves the user offline and every other user as a bare disconnect leaves them |
| ChatSocket.Flush | socket.js:21-35 | the flush keeps every id; afterwards nothing is pending for the user; a message is changed exactly when it was pending |
| ChatSocket.FlushEffect | socket.js:21-35 | the join flush keeps every id, turns each Sent message addressed to the user into Delivered at the current time, and leaves every other message unchanged |
| ChatSocket.FlushLeavesNothingPending | socket.js:21-35 | after a flush no Sent message is addressed to the user, so a second join delivers and emits nothing |
| ChatSocket.FlushIdempotent | socket.js:21-35 | flushing twice gives the same store as flushing once |
| ChatSocket.Notices | socket.js:26-31 | one receiveMessage per found id, in the order found, each to the joining socket and carrying that id |
| ChatSocket.NoticesFaithful | socket.js:26-31 | the flush emits exactly one receiveMessage per id of the found order, in that order, to the joining socket, with the stored sender, text and id |
| ChatSocket.NoticesOncePerPending | socket.js:21-31 | when the found ids are the answer of the pending-message query, each once, the flush emits exactly one notice per pending message and no other notice |
| ChatSocket.DeliverFound | socket.js:26-35 | walking the found ids delivers exactly those messages at now and appends exactly their notices, in order, to the emitted events |
| ChatSocket.MarkRead | socket.js:59-66 | every id is kept; a known message is Read afterwards; every other message is unchanged |
| ChatSocket.MarkReadEffect | socket.js:59-66 | markAsRead on an unknown id or a Read message changes nothing; otherwise it sets Read and readAt to now and touches no other message |
| ChatSocket.MarkReadIdempotent | socket.js:61-63 | a repeated markAsRead never overwrites the first readAt |
| ChatSocket.MarkReadSkipsDelivery | socket.js:61-63 | a Sent message becomes Read with no delivery date, and still satisfies the invariant |
| ChatSocket.SendDraft | socket.js:41-47 | the built document has every required field exactly when sender, receiver and a non-empty text are given; it has a delivery date exactly when the receiver is present; timestamp and readAt are left to the schema |
| ChatSocket.SendDraftCreates | socket.js:40-47 | a sent message is stored Delivered with deliveredAt now exactly when the receiver is present, Sent with no delivery date otherwise, unread, timestamped now and well formed; a payload missing a required field is refused |
| ChatSocket.FlushPreserves | socket.js:33-34 | the flush keeps the status/date invariant of every message and only moves messages forward |
| ChatSocket.MarkReadPreserves | socket.js:61-63 | markAsRead keeps the status/date invariant of every message and only moves messages forward |
| ChatSocket.ChatServer.constructor | socket.js:4 | the presence map starts empty over an existing well-formed collection |
| ChatSocket.ChatServer.Join | socket.js:17-37 | given the found ids (each pending id exactly once), users[userId] becomes this socket and no other entry changes; the store becomes the flush; the notices of the found ids, in that order, are appended to the outbox; the invariant holds and status only moves forward |
| ChatSocket.ChatServer.SendMessage | socket.js:39-57 | exactly one message is added under the fresh id, with status from the receiver's presence; one emit to the receiver's socket only when present, none to the sender; presence unchanged; nothing stored or emitted on a validation failure |
| ChatSocket.ChatServer.MarkAsRead | socket.js:59-66 | the store becomes MarkRead of the old store; presence and outbox are unchanged; the invariant holds and status only moves forward |
| ChatSocket.ChatServer.Disconnect | socket.js:68-73 | the presence map loses exactly the entries pointing at the closing socket; store and outbox are unchanged |
| ChatRoutes.Between | routes/chatRoutes.js:11-14 | a selected message has both its sender and its receiver among the two users; a message to oneself is selected only when both users are its sender |
| ChatRoutes.Conversation | routes/chatRoutes.js:10-14 | the selection holds each message between the two users, in either direction, as often as it is stored, and nothing else |
| ChatRoutes.InsertByTime | routes/chatRoutes.js:15 | inserting into a timestamp-ordered list keeps it ordered and adds exactly that message |
| ChatRoutes.SortByTime | routes/chatRoutes.js:15 | the sort result is ordered by ascending timestamp and is a permutation of its input |
| ChatRoutes.History | routes/chatRoutes.js:7-17 | the history is ascending by timestamp, contains only messages between the two users, and contains every such stored message as often as it is stored |
| ChatRoutes.ConversationSymmetric | routes/chatRoutes.js:11-14 | swapping the two users selects the same messages in the same order |
| ChatRoutes.HistorySymmetric | routes/chatRoutes.js:10-15 | swapping user1 and user2 returns the same history |
| ChatRoutes.ScanOrder | routes/chatRoutes.js:10-15 | the collection read as a sequence has one element per stored id: each message occurs exactly as often as ids hold it, so the sequence holds every stored message and nothing else |
| ChatRoutes.StoredInHistory | routes/chatRoutes.js:7-17 | every stored message between the two users appears in their history, whichever user is named first, exactly as often as the collection stores it |
| PublicRoutes.Split | routes/publicRoutes.js:21 | splitting on a character gives at least one piece, and no piece contains the separator |
| PublicRoutes.SplitJoin | routes/publicRoutes.js:20-23 | joining the amenity pieces with "," gives back the amenities string |
| PublicRoutes.JoinSplit | routes/publicRoutes.js:20-23 | splitting a join of comma-free pieces gives back those pieces |
| PublicRoutes.QueryFor | routes/publicRoutes.js:7-27 | the query always requires isAvailable; it has a price constraint exactly when minPrice or maxPrice is non-empty; an amenities constraint holds at least one piece |
| PublicRoutes.BuildQuery | routes/publicRoutes.js:7-27 | the step-by-step construction yields the query QueryFor describes |
| PublicRoutes.QueryForShape | routes/publicRoutes.js:7-27 | isAvailable is always true; a price constraint exists exactly when minPrice or maxPrice is non-empty, each bound from its own parameter; amenities, location and category appear exactly when given; the amenities are the comma-free pieces of the parameter; location becomes a case-insensitive pattern on locationName; category is copied as given; no filter gives exactly {isAvailable: true} |
| PublicRoutes.ShowRoom | routes/publicRoutes.js:38-42 | the answer is 404 exactly when the room is missing or unavailable, and otherwise the stored room |
| AuthRole.Guard | middleware/authRoleMiddleware.js:3-10 | next is called exactly when the user exists and holds a listed role; otherwise the answer is 403 "Access Denied"; never both |
| AuthRole.GuardMonotone | middleware/authRoleMiddleware.js:6 | enlarging the role list never turns an admitted request away |
| AuthRole.TenantAndLandlordGuardsDenyAll | models/userModel.js:23-28 | with every stored role among user, owner and admin, the ["tenant"] and ["landlord"] guards answer 403 to every request |

## Left out

- Concurrency and async ordering: the `forEach(async …)` saves in `join` are not awaited, and `join` and `markAsRead` can race on one message. Each handler is one atomic step.
- Socket.io server setup, CORS and logging (socket.js:7-15, 15, 19, 69). Emits are outbox records; transport failures are not modelled.
- Mongoose and MongoDB: ObjectId format and cast errors, `populate`, connection setup. Stores are Dafny maps or sequences; message ids are naturals chosen by the caller.
- Database errors and the 500 answers of routes/chatRoutes.js:18-20 and routes/publicRoutes.js:32-35 and 43-45.
- Clocks: `Date.now` and `new Date` are the `now` parameter, one value per event.
- `join` with a missing `userId` (the key becomes the string "undefined" and the find filter loses its receiver): the model's `join` always has a user id.
- How the database evaluates the room query (routes/publicRoutes.js:29), and the `populate` of the owner. The model stops at the query object. It does not say which rooms match, because that depends on Mongoose behaviour outside the route:
  - `locationName` and `category` are not declared in the room schema, so Mongoose's `strictQuery` may drop those two filters.
  - `parseInt` of a non-numeric bound gives `NaN`, and casting it fails, so the route answers 500.
  - Prices are numbers that may be fractional.
- Repeated query keys. Each query parameter is modelled as a single optional string, but a key given twice arrives as an array:
  - a repeated `amenities` makes `split` throw, so the route answers 500;
  - a repeated `minPrice` or `maxPrice` is read by `parseInt` as the text of the joined array;
  - a repeated `location` or `category` reaches the query as an array.
- `parseInt` and the case-insensitive `$regex` (routes/publicRoutes.js:12-13, 17): the query carries the raw strings.
- Authentication, OTP, mail, uploads, geospatial search, admin/landlord/map CRUD and the migration script: no logic of the modelled core.
