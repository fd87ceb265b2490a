/** The real-time chat layer of socket.js: the process-wide presence map
    (`users`), the message store and the four socket event handlers `join`,
    `sendMessage`, `markAsRead` and `disconnect`, each run as one atomic step.
    Emissions to a socket are recorded in an outbox instead of being sent. */
module ChatSocket {
  import opened Common
  import opened MessageModel
  import ChatRoutes

  /** One `receiveMessage` event emitted to the socket `to`, carrying the
      sender, the text and the message id. */
  datatype Emit = ReceiveMessage(to: SocketId, sender: UserId, text: string, id: MsgId)

  // ---------------------------------------------------------------------------
  // Presence map

  /** The presence map after `disconnect` of `socket`: every entry pointing at
      that socket is gone. */
  function Unbind(users: map<UserId, SocketId>, socket: SocketId): (r: map<UserId, SocketId>)
    ensures socket !in r.Values
    ensures forall u :: u in r ==> u in users && r[u] == users[u]
    ensures forall u :: u in users && users[u] != socket ==> u in r
  {
    map u | u in users && users[u] != socket :: users[u]
  }

  /** Disconnecting removes exactly the entries that point at the closing
      socket, however many users joined through it, and keeps every other entry
      as it was. */
  lemma UnbindEffect(users: map<UserId, SocketId>, socket: SocketId)
    ensures forall u :: u in Unbind(users, socket) <==> u in users && users[u] != socket
    ensures forall u :: u in Unbind(users, socket) ==> Unbind(users, socket)[u] == users[u]
    ensures socket !in Unbind(users, socket).Values
  {
  }

  /** A second `disconnect` of the same socket changes nothing. */
  lemma UnbindIdempotent(users: map<UserId, SocketId>, socket: SocketId)
    ensures Unbind(Unbind(users, socket), socket) == Unbind(users, socket)
  {
  }

  /** `join` followed by `disconnect` of the same socket leaves the user
      offline and every other user as a bare `disconnect` would. */
  lemma JoinThenUnbind(users: map<UserId, SocketId>, u: UserId, socket: SocketId)
    ensures u !in Unbind(users[u := socket], socket)
    ensures Unbind(users[u := socket], socket) == Unbind(users, socket) - {u}
  {
    var lhs := Unbind(users[u := socket], socket);
    var rhs := Unbind(users, socket) - {u};
    assert forall v :: v in lhs <==> v in rhs;
    assert lhs == rhs;
  }

  // ---------------------------------------------------------------------------
  // Flushing on `join`

  /** A message the `join` of `u` delivers: addressed to `u` and still `Sent`. */
  predicate Pending(m: Message, u: UserId)
  {
    m.receiver == u && m.status == Sent
  }

  /** The ids `Message.find({receiverId: u, status: "Sent"})` returns. */
  function PendingIds(store: map<MsgId, Message>, u: UserId): set<MsgId>
  {
    set id | id in store && Pending(store[id], u)
  }

  /** One flushed message: marked `Delivered` at `now`. */
  function Deliver(m: Message, now: Time): Message
  {
    m.(status := Delivered, deliveredAt := Some(now))
  }

  /** The store after the `join` flush of `u`: its pending messages delivered,
      every other message untouched. */
  function Flush(store: map<MsgId, Message>, u: UserId, now: Time): (r: map<MsgId, Message>)
    ensures r.Keys == store.Keys
    ensures forall id :: id in r ==> !Pending(r[id], u)
    ensures forall id :: id in r ==> (r[id] == store[id] <==> !Pending(store[id], u))
  {
    map id | id in store :: if Pending(store[id], u) then Deliver(store[id], now) else store[id]
  }

  /** The flush keeps every id, delivers exactly the pending messages of `u`
      at `now`, and leaves every other message (other receivers, or already
      `Delivered` or `Read`) unchanged. */
  lemma FlushEffect(store: map<MsgId, Message>, u: UserId, now: Time)
    ensures Flush(store, u, now).Keys == store.Keys
    ensures forall id :: id in store && Pending(store[id], u) ==>
      Flush(store, u, now)[id] == store[id].(status := Delivered, deliveredAt := Some(now))
    ensures forall id :: id in store && !Pending(store[id], u) ==> Flush(store, u, now)[id] == store[id]
  {
  }

  /** `store` with exactly the messages whose ids are in `done` delivered at
      `now`: the state of the flush loop part way through. */
  function DeliverIds(store: map<MsgId, Message>, done: seq<MsgId>, now: Time): map<MsgId, Message>
  {
    map id | id in store :: if id in done then Deliver(store[id], now) else store[id]
  }

  /** Once the loop has walked all pending ids, the store is the flush. */
  lemma FlushPointwise(store: map<MsgId, Message>, found: seq<MsgId>, u: UserId, now: Time)
    requires forall id :: id in found <==> id in PendingIds(store, u)
    ensures DeliverIds(store, found, now) == Flush(store, u, now)
  {
  }

  /** Delivering one more stored id extends the part already delivered. */
  lemma DeliverIdsSnoc(store: map<MsgId, Message>, done: seq<MsgId>, id: MsgId, now: Time)
    requires id in store
    ensures DeliverIds(store, done + [id], now) == DeliverIds(store, done, now)[id := Deliver(store[id], now)]
  {
    var lhs := DeliverIds(store, done + [id], now);
    var rhs := DeliverIds(store, done, now)[id := Deliver(store[id], now)];
    assert forall x :: x in done + [id] <==> x in done || x == id;
    assert lhs.Keys == rhs.Keys;
    assert forall x :: x in lhs ==> lhs[x] == rhs[x];
  }

  /** The loop of the `join` flush: walks `found`, appending one notice per id
      to `emitted` and delivering the found message at `now`. */
  method DeliverFound(store: map<MsgId, Message>, emitted: seq<Emit>, found: seq<MsgId>,
                      socket: SocketId, now: Time)
    returns (flushed: map<MsgId, Message>, out: seq<Emit>)
    requires forall id :: id in found ==> id in store
    ensures flushed == DeliverIds(store, found, now)
    ensures out == emitted + Notices(store, found, socket)
  {
    flushed, out := store, emitted;
    assert DeliverIds(store, [], now) == store;
    for i := 0 to |found|
      invariant flushed == DeliverIds(store, found[..i], now)
      invariant out == emitted + Notices(store, found[..i], socket)
    {
      var id := found[i];
      var msg := store[id];
      assert found[..i + 1] == found[..i] + [id];
      DeliverIdsSnoc(store, found[..i], id, now);
      NoticesSnoc(store, found[..i], id, socket);
      out := out + [ReceiveMessage(socket, msg.sender, msg.text, id)];
      flushed := flushed[id := Deliver(msg, now)];
    }
    assert found[..|found|] == found;
  }

  /** After a flush nothing is pending for `u` any more, so a second `join` of
      the same user delivers and emits nothing again. */
  lemma FlushLeavesNothingPending(store: map<MsgId, Message>, u: UserId, now: Time)
    ensures PendingIds(Flush(store, u, now), u) == {}
  {
  }

  /** Flushing twice is flushing once. */
  lemma FlushIdempotent(store: map<MsgId, Message>, u: UserId, t1: Time, t2: Time)
    ensures Flush(Flush(store, u, t1), u, t2) == Flush(store, u, t1)
  {
    var once := Flush(store, u, t1);
    FlushLeavesNothingPending(store, u, t1);
    assert forall id :: id in once ==> !Pending(once[id], u) by {
      forall id | id in once ensures !Pending(once[id], u) {
        assert id !in PendingIds(once, u);
      }
    }
  }

  /** The `receiveMessage` events the flush emits to `socket`, one per id of
      `order`, each carrying the stored sender, text and id. */
  function Notices(store: map<MsgId, Message>, order: seq<MsgId>, socket: SocketId): (r: seq<Emit>)
    requires forall id :: id in order ==> id in store
    ensures |r| == |order|
    ensures forall i :: 0 <= i < |r| ==> r[i].to == socket && r[i].id == order[i]
  {
    if order == [] then []
    else
      var last := order[|order| - 1];
      Notices(store, order[..|order| - 1], socket)
        + [ReceiveMessage(socket, store[last].sender, store[last].text, last)]
  }

  /** One more processed id adds its notice at the end. */
  lemma NoticesSnoc(store: map<MsgId, Message>, order: seq<MsgId>, id: MsgId, socket: SocketId)
    requires forall x :: x in order ==> x in store
    requires id in store
    ensures Notices(store, order + [id], socket)
         == Notices(store, order, socket) + [ReceiveMessage(socket, store[id].sender, store[id].text, id)]
  {
    assert (order + [id])[..|order|] == order;
  }

  /** The flush emits exactly one event per message, to the joining socket,
      with that message's sender, text and id. */
  lemma {:induction false} NoticesFaithful(store: map<MsgId, Message>, order: seq<MsgId>, socket: SocketId)
    requires forall id :: id in order ==> id in store
    ensures |Notices(store, order, socket)| == |order|
    ensures forall i :: 0 <= i < |order| ==>
      Notices(store, order, socket)[i] == ReceiveMessage(socket, store[order[i]].sender, store[order[i]].text, order[i])
  {
    if order != [] {
      var prefix := order[..|order| - 1];
      NoticesFaithful(store, prefix, socket);
    }
  }

  /** No id occurs twice in a sequence. */
  predicate Distinct(s: seq<MsgId>)
  {
    forall i, j :: 0 <= i < j < |s| ==> s[i] != s[j]
  }

  /** The ids a sequence lists. */
  function Elems(s: seq<MsgId>): set<MsgId>
  {
    set x | x in s
  }

  /** A sequence without repeats has as many distinct elements as entries. */
  lemma {:induction false} DistinctCard(s: seq<MsgId>)
    requires Distinct(s)
    ensures |Elems(s)| == |s|
  {
    if s != [] {
      DistinctCard(s[1..]);
      assert s[0] !in Elems(s[1..]) by {
        forall k | 0 <= k < |s[1..]| ensures s[1..][k] != s[0] {
          assert s[1..][k] == s[k + 1];
        }
      }
      assert Elems(s) == Elems(s[1..]) + {s[0]} by {
        assert s == [s[0]] + s[1..];
      }
    } else {
      assert Elems(s) == {};
    }
  }

  /** With `found` the answer of the pending-message query (each pending id
      once), the flush emits exactly one notice per pending message and no
      other notice. */
  lemma NoticesOncePerPending(store: map<MsgId, Message>, found: seq<MsgId>, u: UserId, socket: SocketId)
    requires Distinct(found)
    requires forall id :: id in found <==> id in PendingIds(store, u)
    ensures |Notices(store, found, socket)| == |PendingIds(store, u)|
    ensures forall i :: 0 <= i < |found| ==> Notices(store, found, socket)[i].id in PendingIds(store, u)
    ensures forall id :: id in PendingIds(store, u) ==>
      exists i :: 0 <= i < |found| && Notices(store, found, socket)[i].id == id
    ensures forall i, j :: 0 <= i < j < |found| ==>
      Notices(store, found, socket)[i].id != Notices(store, found, socket)[j].id
  {
    DistinctCard(found);
    assert Elems(found) == PendingIds(store, u);
    forall id | id in PendingIds(store, u)
      ensures exists i :: 0 <= i < |found| && Notices(store, found, socket)[i].id == id
    {
      var i :| 0 <= i < |found| && found[i] == id;
      assert Notices(store, found, socket)[i].id == id;
    }
  }

  // ---------------------------------------------------------------------------
  // `markAsRead`

  /** The store after `markAsRead(id)` at `now`: a known message that is not
      yet `Read` becomes `Read` with `readAt = now`; otherwise nothing changes. */
  function MarkRead(store: map<MsgId, Message>, id: MsgId, now: Time): (r: map<MsgId, Message>)
    ensures r.Keys == store.Keys
    ensures id in r ==> r[id].status == Read
    ensures forall other :: other in store && other != id ==> r[other] == store[other]
  {
    if id in store && store[id].status != Read
    then store[id := store[id].(status := Read, readAt := Some(now))]
    else store
  }

  /** Reading an unknown id or an already-read message is a no-op; reading
      anything else sets status and read date and touches no other message. */
  lemma MarkReadEffect(store: map<MsgId, Message>, id: MsgId, now: Time)
    ensures id !in store || store[id].status == Read ==> MarkRead(store, id, now) == store
    ensures MarkRead(store, id, now).Keys == store.Keys
    ensures id in store && store[id].status != Read ==>
      && MarkRead(store, id, now)[id].status == Read
      && MarkRead(store, id, now)[id].readAt == Some(now)
    ensures forall other :: other in store && other != id ==> MarkRead(store, id, now)[other] == store[other]
  {
  }

  /** A repeated `markAsRead` never overwrites the first read date. */
  lemma MarkReadIdempotent(store: map<MsgId, Message>, id: MsgId, t1: Time, t2: Time)
    ensures MarkRead(MarkRead(store, id, t1), id, t2) == MarkRead(store, id, t1)
  {
  }

  /** `markAsRead` accepts a message that was never delivered: a `Sent`
      message becomes `Read` with no delivery date, so `Read` does not imply
      `deliveredAt` is set. */
  lemma MarkReadSkipsDelivery(store: map<MsgId, Message>, id: MsgId, now: Time)
    requires id in store && WellFormed(store[id]) && store[id].status == Sent
    ensures MarkRead(store, id, now)[id].status == Read
    ensures MarkRead(store, id, now)[id].deliveredAt.None?
    ensures WellFormed(MarkRead(store, id, now)[id])
  {
  }

  // ---------------------------------------------------------------------------
  // `sendMessage`

  /** The document `sendMessage` builds: status and delivery date follow the
      receiver's presence at send time. */
  function SendDraft(sender: Option<UserId>, receiver: Option<UserId>, text: Option<string>,
                     online: bool, now: Time): (d: Draft)
    ensures HasRequired(d) <==> sender.Some? && receiver.Some? && text.Some? && text.value != ""
    ensures d.deliveredAt.Some? <==> online
    ensures d.timestamp.None? && d.readAt.None?
  {
    Draft(sender, receiver, text, None,
          Some(if online then Delivered else Sent),
          if online then Some(now) else None,
          None)
  }

  /** A message sent to a present receiver is stored `Delivered` with
      `deliveredAt = now`; to an absent one `Sent` with no delivery date. Either
      way it is timestamped `now`, unread and well formed; a payload missing a
      required field is refused. */
  lemma SendDraftCreates(sender: Option<UserId>, receiver: Option<UserId>, text: Option<string>,
                         online: bool, now: Time)
    ensures Create(SendDraft(sender, receiver, text, online, now), now).Ok?
        <==> sender.Some? && receiver.Some? && text.Some? && text.value != ""
    ensures var r := Create(SendDraft(sender, receiver, text, online, now), now);
      r.Ok? ==>
        && WellFormed(r.message)
        && (r.message.status == Delivered <==> online)
        && (r.message.status == Sent <==> !online)
        && r.message.deliveredAt == (if online then Some(now) else None)
        && r.message.readAt.None?
        && r.message.timestamp == now
  {
  }

  // ---------------------------------------------------------------------------
  // Store-wide properties

  /** Every stored message keeps the status/date consistency. */
  predicate AllWellFormed(store: map<MsgId, Message>)
  {
    forall id :: id in store ==> WellFormed(store[id])
  }

  /** No message disappears and every message only moves forward. */
  predicate StoreAdvances(before: map<MsgId, Message>, after: map<MsgId, Message>)
  {
    forall id :: id in before ==> id in after && Advances(before[id], after[id])
  }

  lemma StoreAdvancesTransitive(a: map<MsgId, Message>, b: map<MsgId, Message>, c: map<MsgId, Message>)
    requires StoreAdvances(a, b) && StoreAdvances(b, c)
    ensures StoreAdvances(a, c)
  {
    forall id | id in a ensures id in c && Advances(a[id], c[id]) {
      AdvancesTransitive(a[id], b[id], c[id]);
    }
  }

  /** The flush keeps every message well formed and only moves it forward. */
  lemma FlushPreserves(store: map<MsgId, Message>, u: UserId, now: Time)
    requires AllWellFormed(store)
    ensures AllWellFormed(Flush(store, u, now))
    ensures StoreAdvances(store, Flush(store, u, now))
  {
  }

  /** `markAsRead` keeps every message well formed and only moves it forward. */
  lemma MarkReadPreserves(store: map<MsgId, Message>, id: MsgId, now: Time)
    requires AllWellFormed(store)
    ensures AllWellFormed(MarkRead(store, id, now))
    ensures StoreAdvances(store, MarkRead(store, id, now))
  {
  }

  // ---------------------------------------------------------------------------
  // The server state and the four handlers

  class ChatServer {
    /** socket.js's module-level `users` object: user id to socket id. */
    var users: map<UserId, SocketId>
    /** The `Message` collection, by `_id`. */
    var store: map<MsgId, Message>
    /** Every `receiveMessage` emitted so far, in order. */
    var outbox: seq<Emit>

    /** Socket ids are non-empty (so a present entry is truthy) and every
        stored message is well formed. */
    ghost predicate Valid()
      reads this
    {
      && (forall u :: u in users ==> users[u] != "")
      && AllWellFormed(store)
    }

    /** A server starting with nobody online over an existing collection. */
    constructor (existing: map<MsgId, Message>)
      requires AllWellFormed(existing)
      ensures Valid()
      ensures users == map[] && store == existing && outbox == []
    {
      users := map[];
      store := existing;
      outbox := [];
    }

    /** `join`: binds `userId` to this socket, overwriting any earlier socket,
        then walks `found`, the answer of `Message.find` for the user's
        pending messages (each once, in the database's order), emitting each
        to this socket and marking it `Delivered` at `now`. */
    method Join(userId: UserId, socket: SocketId, now: Time, found: seq<MsgId>)
      requires Valid()
      requires socket != ""
      requires Distinct(found)
      requires forall id :: id in found <==> id in PendingIds(store, userId)
      modifies this
      ensures Valid()
      ensures users == old(users)[userId := socket]
      ensures store == Flush(old(store), userId, now)
      ensures StoreAdvances(old(store), store)
      ensures outbox == old(outbox) + Notices(old(store), found, socket)
    {
      users := users[userId := socket];
      ghost var before := store;
      store, outbox := DeliverFound(store, outbox, found, socket, now);
      FlushPointwise(before, found, userId, now);
      FlushPreserves(before, userId, now);
    }

    /** `sendMessage`: stores one new message under the fresh id `id`, `Delivered`
        if the receiver is present and `Sent` otherwise, and emits it to the
        receiver's socket only when present; nothing is emitted to the sender
        and the presence map is untouched. A payload missing a required field
        fails validation: nothing is stored or emitted. */
    method SendMessage(sender: Option<UserId>, receiver: Option<UserId>, text: Option<string>,
                       id: MsgId, now: Time)
      requires Valid()
      requires id !in store
      modifies this
      ensures Valid()
      ensures users == old(users)
      ensures StoreAdvances(old(store), store)
      ensures var online := receiver.Some? && receiver.value in old(users);
        var created := Create(SendDraft(sender, receiver, text, online, now), now);
        if created.Ok? then
          && store == old(store)[id := created.message]
          && outbox == old(outbox) +
               (if online then [ReceiveMessage(old(users)[receiver.value], sender.value, text.value, id)] else [])
        else
          store == old(store) && outbox == old(outbox)
    {
      var online := receiver.Some? && receiver.value in users;
      var created := Create(SendDraft(sender, receiver, text, online, now), now);
      if created.Ok? {
        SendDraftCreates(sender, receiver, text, online, now);
        store := store[id := created.message];
        if online {
          outbox := outbox + [ReceiveMessage(users[receiver.value], sender.value, text.value, id)];
        }
      }
    }

    /** `markAsRead`: a known, unread message becomes `Read` at `now`; an
        already-read message or an unknown id is left alone. */
    method MarkAsRead(id: MsgId, now: Time)
      requires Valid()
      modifies this
      ensures Valid()
      ensures store == MarkRead(old(store), id, now)
      ensures StoreAdvances(old(store), store)
      ensures users == old(users) && outbox == old(outbox)
    {
      if id in store && store[id].status != Read {
        var msg := store[id];
        store := store[id := msg.(status := Read, readAt := Some(now))];
      }
      MarkReadPreserves(old(store), id, now);
    }

    /** `disconnect`: deletes every presence entry pointing at the closing
        socket, visiting the keys present when the event fired. */
    method Disconnect(socket: SocketId)
      requires Valid()
      modifies this
      ensures Valid()
      ensures users == Unbind(old(users), socket)
      ensures store == old(store) && outbox == old(outbox)
    {
      var keys := users.Keys;
      while keys != {}
        invariant keys <= old(users).Keys
        invariant forall u :: u in users <==> u in old(users) && (u in keys || old(users)[u] != socket)
        invariant forall u :: u in users ==> users[u] == old(users)[u]
        invariant store == old(store) && outbox == old(outbox)
        invariant Valid()
        decreases keys
      {
        var k :| k in keys;
        if users[k] == socket {
          users := users - {k};
        }
        keys := keys - {k};
      }
      assert users == Unbind(old(users), socket);
    }
  }

  /** A message to an offline receiver is queued as `Sent` and emitted to
      nobody; the receiver's `join` then delivers it to the new socket. */
  method OfflineThenJoin()
  {
    var server := new ChatServer(map[]);
    server.SendMessage(Some("b"), Some("a"), Some("hi"), 1, 100);
    assert server.store[1].status == Sent && server.outbox == [];
    assert server.store.Keys == {1};
    assert PendingIds(server.store, "a") == {1};
    server.Join("a", "sa", 200, [1]);
    assert server.outbox == [ReceiveMessage("sa", "b", "hi", 1)];
    assert server.store[1].status == Delivered && server.store[1].deliveredAt == Some(200);
  }

  /** A present receiver gets a message at once and the sender nothing; after
      `disconnect` and two `markAsRead`s the first read date stands, every
      stored message has only moved forward across the run, and the message
      shows up in the chat history of its two users. */
  method OnlineSendAndRead()
  {
    var server := new ChatServer(map[]);
    assert PendingIds(server.store, "a") == {};
    server.Join("a", "sa", 50, []);
    ghost var start := server.store;
    server.SendMessage(Some("b"), Some("a"), Some("hi"), 1, 100);
    assert server.store[1].status == Delivered && server.store[1].deliveredAt == Some(100);
    assert server.outbox == [ReceiveMessage("sa", "b", "hi", 1)];

    server.Disconnect("sa");
    assert server.users == map[];
    ghost var sent := server.store;
    server.MarkAsRead(1, 400);
    StoreAdvancesTransitive(start, sent, server.store);
    ghost var read := server.store;
    server.MarkAsRead(1, 500);
    StoreAdvancesTransitive(start, read, server.store);
    assert server.store[1].readAt == Some(400);
    assert StoreAdvances(start, server.store);

    ChatRoutes.StoredInHistory(server.store, 1, "a", "b");
    assert server.store[1] in ChatRoutes.History(ChatRoutes.ScanOrder(server.store), "b", "a");
  }
}
