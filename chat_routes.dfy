/** `GET /:user1/:user2` of routes/chatRoutes.js: the chat history between two
    users, i.e. every message sent by either of them to the other, ordered by
    ascending timestamp. The collection is given as the sequence of documents
    the database scans. */
module ChatRoutes {
  import opened Common
  import opened MessageModel

  /** The query's `$or`: sent from `u1` to `u2` or from `u2` to `u1`. The
      match involves no third user, and a message to oneself matches only when
      both users are that one user. */
  predicate Between(m: Message, u1: UserId, u2: UserId)
    ensures Between(m, u1, u2) ==> m.sender in [u1, u2] && m.receiver in [u1, u2]
    ensures Between(m, u1, u2) && m.sender == m.receiver ==> u1 == u2 == m.sender
  {
    (m.sender == u1 && m.receiver == u2) || (m.sender == u2 && m.receiver == u1)
  }

  /** The documents `Message.find` selects, in scan order: each message between
      the two users exactly as often as it is stored, and nothing else. */
  function Conversation(docs: seq<Message>, u1: UserId, u2: UserId): (r: seq<Message>)
    ensures forall m :: multiset(r)[m] == if Between(m, u1, u2) then multiset(docs)[m] else 0
  {
    if docs == [] then []
    else
      assert docs == [docs[0]] + docs[1..];
      (if Between(docs[0], u1, u2) then [docs[0]] else []) + Conversation(docs[1..], u1, u2)
  }

  /** Ascending by timestamp. */
  predicate SortedByTime(s: seq<Message>)
  {
    forall i, j :: 0 <= i < j < |s| ==> s[i].timestamp <= s[j].timestamp
  }

  /** `m` placed before the first message of `s` that is not older. */
  function InsertByTime(m: Message, s: seq<Message>): (r: seq<Message>)
    requires SortedByTime(s)
    ensures SortedByTime(r)
    ensures multiset(r) == multiset(s) + multiset{m}
    ensures |r| == |s| + 1
    ensures r[0] == m || (s != [] && r[0] == s[0])
  {
    if s == [] || m.timestamp <= s[0].timestamp then [m] + s
    else
      assert s == [s[0]] + s[1..];
      [s[0]] + InsertByTime(m, s[1..])
  }

  /** `.sort("timestamp")`: an insertion sort on the timestamp. */
  function SortByTime(s: seq<Message>): (r: seq<Message>)
    ensures SortedByTime(r)
    ensures multiset(r) == multiset(s)
  {
    if s == [] then []
    else
      assert s == [s[0]] + s[1..];
      InsertByTime(s[0], SortByTime(s[1..]))
  }

  /** The history the route returns: every message between `u1` and `u2`, in
      either direction, as often as it is stored, and nothing else, oldest
      first. */
  function History(docs: seq<Message>, u1: UserId, u2: UserId): (r: seq<Message>)
    ensures SortedByTime(r)
    ensures forall m :: m in r ==> Between(m, u1, u2)
    ensures forall m :: m in docs && Between(m, u1, u2) ==> m in r
    ensures forall m :: multiset(r)[m] == if Between(m, u1, u2) then multiset(docs)[m] else 0
  {
    var r := SortByTime(Conversation(docs, u1, u2));
    assert forall m :: m in r <==> multiset(r)[m] > 0;
    r
  }

  /** The query is symmetric in the two users, so swapping them selects the
      same documents in the same order. */
  lemma {:induction false} ConversationSymmetric(docs: seq<Message>, u1: UserId, u2: UserId)
    ensures Conversation(docs, u1, u2) == Conversation(docs, u2, u1)
  {
    if docs != [] {
      ConversationSymmetric(docs[1..], u1, u2);
    }
  }

  /** Swapping `user1` and `user2` in the URL returns the same history. */
  lemma HistorySymmetric(docs: seq<Message>, u1: UserId, u2: UserId)
    ensures History(docs, u1, u2) == History(docs, u2, u1)
  {
    ConversationSymmetric(docs, u1, u2);
  }

  /** The ids under which the collection stores the message `m`. */
  function Holders(store: map<MsgId, Message>, m: Message): set<MsgId>
  {
    set id | id in store && store[id] == m
  }

  /** Taking `id` out of the collection drops it from the holders of its own
      message and leaves the holders of every other message as they were. */
  lemma HoldersRemove(store: map<MsgId, Message>, id: MsgId, m: Message)
    requires id in store
    ensures |Holders(store - {id}, m)| == |Holders(store, m)| - (if m == store[id] then 1 else 0)
  {
    if m == store[id] {
      assert Holders(store - {id}, m) == Holders(store, m) - {id};
    } else {
      assert Holders(store - {id}, m) == Holders(store, m);
    }
  }

  /** Putting the message of `id` in front of a scan of the rest of the
      collection counts every message as the whole collection stores it. */
  lemma ScanStep(store: map<MsgId, Message>, id: MsgId, tail: seq<Message>)
    requires id in store
    requires forall m :: multiset(tail)[m] == |Holders(store - {id}, m)|
    ensures forall m :: multiset([store[id]] + tail)[m] == |Holders(store, m)|
  {
    forall m ensures multiset([store[id]] + tail)[m] == |Holders(store, m)| {
      assert multiset([store[id]] + tail)[m] == multiset([store[id]])[m] + multiset(tail)[m];
      HoldersRemove(store, id, m);
    }
  }

  /** A sequence counting each message as the collection stores it holds
      every stored message and nothing else. */
  lemma CountedMembers(store: map<MsgId, Message>, s: seq<Message>)
    requires forall m :: multiset(s)[m] == |Holders(store, m)|
    ensures forall id :: id in store ==> store[id] in s
    ensures forall m :: m in s ==> m in store.Values
  {
    forall id | id in store ensures store[id] in s {
      assert id in Holders(store, store[id]);
    }
    forall m | m in s ensures m in store.Values {
      assert multiset(s)[m] > 0;
      var k :| k in Holders(store, m);
    }
  }

  /** The collection as the database scans it: one document per stored id, in
      an order the database chooses, so each message occurs as often as it is
      stored. */
  ghost function ScanOrder(store: map<MsgId, Message>): (s: seq<Message>)
    ensures |s| == |store|
    ensures forall m :: multiset(s)[m] == |Holders(store, m)|
    ensures forall id :: id in store ==> store[id] in s
    ensures forall m :: m in s ==> m in store.Values
    decreases |store|
  {
    if store == map[] then
      assert forall m :: Holders(store, m) == {};
      []
    else
      var id :| id in store;
      var rest := store - {id};
      assert |rest| == |store| - 1;
      var tail := ScanOrder(rest);
      var s := [store[id]] + tail;
      ScanStep(store, id, tail);
      CountedMembers(store, s);
      s
  }

  /** A message stored between two users, in either direction, is part of
      their chat history, as often as the collection stores it. */
  lemma StoredInHistory(store: map<MsgId, Message>, id: MsgId, u1: UserId, u2: UserId)
    requires id in store && Between(store[id], u1, u2)
    ensures store[id] in History(ScanOrder(store), u1, u2)
    ensures store[id] in History(ScanOrder(store), u2, u1)
    ensures multiset(History(ScanOrder(store), u1, u2))[store[id]] == |Holders(store, store[id])|
  {
    HistorySymmetric(ScanOrder(store), u1, u2);
  }
}
