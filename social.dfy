/**
 * Friend requests, friend lists and direct messages
 * (server/controllers/socialController.js, with the schemas
 * server/models/FriendRequest.js and server/models/Message.js). The users,
 * their friend lists, the friend-request collection and the message
 * collection are fields of one in-memory store.
 */
module Social {
  import opened Common
  import opened Sorting

  datatype Status = Pending | Accepted | Rejected

  datatype FriendRequest = FriendRequest(id: nat, sender: UserId, recipient: UserId, status: Status)

  datatype Message = Message(sender: UserId, recipient: UserId, content: string, createdAt: int)

  /**
   * Friend lists are kept for exactly the known users, hold only other known
   * users, hold each at most once, and are symmetric.
   */
  ghost predicate FriendGraph(users: set<UserId>, friends: map<UserId, seq<UserId>>)
  {
    && (forall u :: u in users <==> u in friends)
    && (forall u, v :: u in friends && v in friends[u] ==> v in users && v != u && u in friends[v])
    && (forall u :: u in friends ==> NoDuplicates(friends[u]))
  }

  /** A pending request between the two users, in either direction. */
  predicate PendingBetween(requests: seq<FriendRequest>, a: UserId, b: UserId)
  {
    exists i :: 0 <= i < |requests| && requests[i].status == Pending &&
      ((requests[i].sender == a && requests[i].recipient == b) ||
       (requests[i].sender == b && requests[i].recipient == a))
  }

  /** Some request, in any state, already uses this (sender, recipient) pair. */
  predicate HasPair(requests: seq<FriendRequest>, sender: UserId, recipient: UserId)
  {
    exists i :: 0 <= i < |requests| && requests[i].sender == sender && requests[i].recipient == recipient
  }

  /** Request ids are below the counter and distinct; (sender, recipient) is unique; nobody asks themselves. */
  predicate RequestTable(requests: seq<FriendRequest>, nextId: nat)
  {
    && (forall i :: 0 <= i < |requests| ==> requests[i].id < nextId && requests[i].sender != requests[i].recipient)
    && (forall i, j :: 0 <= i < j < |requests| ==>
          requests[i].id != requests[j].id &&
          (requests[i].sender != requests[j].sender || requests[i].recipient != requests[j].recipient))
  }

  /**
   * The answer of sendFriendRequest: 400 for a missing, malformed or own
   * id, 404 for an unknown recipient, 400 when already friends or when a
   * request is pending either way, 500 when the unique (sender, recipient)
   * index refuses the insert, 201 otherwise. A caller without a user record
   * makes the friends lookup throw, which is also 500.
   */
  function SendStatus(users: set<UserId>, friends: map<UserId, seq<UserId>>, requests: seq<FriendRequest>,
                      caller: UserId, recipientId: string): (status: int)
    ensures status in {201, 400, 404, 500}
    ensures recipientId == "" || !IsObjectId(recipientId) || recipientId == caller ==> status == 400
    ensures status == 201 <==>
      && recipientId != "" && IsObjectId(recipientId) && recipientId != caller
      && recipientId in users && caller in friends
      && recipientId !in friends[caller]
      && !PendingBetween(requests, caller, recipientId)
      && !HasPair(requests, caller, recipientId)
  {
    if recipientId == "" then 400
    else if !IsObjectId(recipientId) then 400
    else if recipientId == caller then 400
    else if recipientId !in users then 404
    else if caller !in friends then 500
    else if recipientId in friends[caller] then 400
    else if PendingBetween(requests, caller, recipientId) then 400
    else if HasPair(requests, caller, recipientId) then 500
    else 201
  }

  /**
   * Once a request has been stored, repeating it, or sending one back the
   * other way, is refused with 400 while it is pending.
   */
  lemma SendBlocksRepeat(users: set<UserId>, friends: map<UserId, seq<UserId>>, requests: seq<FriendRequest>,
                         caller: UserId, recipientId: string, id: nat)
    requires FriendGraph(users, friends)
    requires SendStatus(users, friends, requests, caller, recipientId) == 201
    ensures var rs := requests + [FriendRequest(id, caller, recipientId, Pending)];
      && SendStatus(users, friends, rs, caller, recipientId) == 400
      && (IsObjectId(caller) && caller != "" ==> SendStatus(users, friends, rs, recipientId, caller) == 400)
  {
    var rs := requests + [FriendRequest(id, caller, recipientId, Pending)];
    assert rs[|requests|].status == Pending;
    assert PendingBetween(rs, caller, recipientId);
    assert PendingBetween(rs, recipientId, caller);
  }

  /**
   * After a rejection the same sender cannot ask the same recipient again:
   * the guards pass, but the unique index refuses the insert and the
   * handler answers 500.
   */
  lemma SendAfterRejection(users: set<UserId>, friends: map<UserId, seq<UserId>>, requests: seq<FriendRequest>,
                           caller: UserId, recipientId: string, i: nat)
    requires i < |requests| && requests[i].sender == caller && requests[i].recipient == recipientId
    requires requests[i].status == Rejected
    requires recipientId != "" && IsObjectId(recipientId) && recipientId != caller
    requires recipientId in users && caller in friends && recipientId !in friends[caller]
    requires !PendingBetween(requests, caller, recipientId)
    ensures SendStatus(users, friends, requests, caller, recipientId) == 500
  {
  }

  /** `$addToSet` on both users, skipping a user without a record. */
  function Befriend(friends: map<UserId, seq<UserId>>, a: UserId, b: UserId): map<UserId, seq<UserId>>
  {
    var f := if a in friends then friends[a := AddToSet(friends[a], b)] else friends;
    if b in f then f[b := AddToSet(f[b], a)] else f
  }

  /** `$pull` on both users, skipping a user without a record. */
  function Unfriend(friends: map<UserId, seq<UserId>>, a: UserId, b: UserId): map<UserId, seq<UserId>>
  {
    var f := if a in friends then friends[a := Pull(friends[a], b)] else friends;
    if b in f then f[b := Pull(f[b], a)] else f
  }

  lemma AddToSetKeepsNoDuplicates<T>(s: seq<T>, x: T)
    requires NoDuplicates(s)
    ensures NoDuplicates(AddToSet(s, x))
  {
    if x !in s {
      var r := s + [x];
      forall i, j | 0 <= i < j < |r| ensures r[i] != r[j] {
        if j == |s| {
          assert r[i] == s[i];
        }
      }
    }
  }

  /** Accepting makes the two users friends of each other, keeps every other list, and keeps the graph well-formed. */
  lemma {:induction false} BefriendKeeps(users: set<UserId>, friends: map<UserId, seq<UserId>>, a: UserId, b: UserId)
    requires FriendGraph(users, friends) && a in users && b in users && a != b
    ensures FriendGraph(users, Befriend(friends, a, b))
    ensures b in Befriend(friends, a, b)[a] && a in Befriend(friends, a, b)[b]
    ensures forall u :: u in friends && u != a && u != b ==> Befriend(friends, a, b)[u] == friends[u]
  {
    var g := Befriend(friends, a, b);
    AddToSetKeepsNoDuplicates(friends[a], b);
    AddToSetKeepsNoDuplicates(friends[b], a);
    assert g == friends[a := AddToSet(friends[a], b)][b := AddToSet(friends[b], a)];
    forall u, v | u in g && v in g[u] ensures v in users && v != u && u in g[v]
    {
      if u == a {
        assert v == b || v in friends[a];
      } else if u == b {
        assert v == a || v in friends[b];
      } else {
        assert v in friends[u];
      }
    }
  }

  /** Removing a friend takes each user off the other's list, keeps every other list, and keeps the graph well-formed. */
  lemma UnfriendKeeps(users: set<UserId>, friends: map<UserId, seq<UserId>>, a: UserId, b: UserId)
    requires FriendGraph(users, friends)
    ensures FriendGraph(users, Unfriend(friends, a, b))
    ensures a in friends ==> b !in Unfriend(friends, a, b)[a]
    ensures b in friends ==> a !in Unfriend(friends, a, b)[b]
    ensures forall u :: u in friends && u != a && u != b ==> Unfriend(friends, a, b)[u] == friends[u]
  {
    var g := Unfriend(friends, a, b);
    assert forall u :: u in g <==> u in friends;
    forall u | u in g
      ensures NoDuplicates(g[u])
      ensures forall v :: v in g[u] ==> v in users && v != u && u in g[v]
    {
      UnfriendEntry(users, friends, a, b, u);
      forall v | v in g[u]
        ensures v in users && v != u && u in g[v]
      {
        UnfriendEntry(users, friends, a, b, v);
      }
    }
    if a in friends {
      UnfriendEntry(users, friends, a, b, a);
    }
    if b in friends {
      UnfriendEntry(users, friends, a, b, b);
    }
    forall u | u in friends && u != a && u != b
      ensures g[u] == friends[u]
    {
      UnfriendEntry(users, friends, a, b, u);
    }
  }

  /** One list after removing a friend: the other party is gone from both lists, everything else stays. */
  lemma UnfriendEntry(users: set<UserId>, friends: map<UserId, seq<UserId>>, a: UserId, b: UserId, u: UserId)
    requires FriendGraph(users, friends) && u in friends
    ensures u in Unfriend(friends, a, b)
    ensures forall y :: y in Unfriend(friends, a, b)[u] <==>
      y in friends[u] && !(u == a && y == b) && !(u == b && y == a)
    ensures NoDuplicates(Unfriend(friends, a, b)[u])
    ensures u != a && u != b ==> Unfriend(friends, a, b)[u] == friends[u]
  {
    var f := if a in friends then friends[a := Pull(friends[a], b)] else friends;
    if u == a {
      PullKeepsNoDuplicates(friends[a], b);
      if u == b {
        PullKeepsNoDuplicates(f[b], a);
      }
    } else if u == b {
      PullKeepsNoDuplicates(friends[b], a);
    }
  }

  /** The index of the pending request with this id addressed to `caller`, or -1. */
  function FindPending(requests: seq<FriendRequest>, id: nat, caller: UserId): (i: int)
    ensures -1 <= i < |requests|
    ensures i >= 0 ==> requests[i].id == id && requests[i].recipient == caller && requests[i].status == Pending
    ensures i == -1 ==> forall j :: 0 <= j < |requests| ==>
      !(requests[j].id == id && requests[j].recipient == caller && requests[j].status == Pending)
  {
    if |requests| == 0 then -1
    else
      var r := requests[|requests| - 1];
      if r.id == id && r.recipient == caller && r.status == Pending then |requests| - 1
      else FindPending(requests[..|requests| - 1], id, caller)
  }

  /** The participants of a message other than `caller` (the caller itself for a message to oneself). */
  function Counterpart(caller: UserId, m: Message): UserId
  {
    if m.sender == caller then m.recipient else m.sender
  }

  predicate Involves(caller: UserId, m: Message)
  {
    m.sender == caller || m.recipient == caller
  }

  /** The messages exchanged by the two users, in either direction. */
  function Between(messages: seq<Message>, a: UserId, b: UserId): (r: seq<Message>)
    ensures forall m :: m in r <==> (m in messages &&
      ((m.sender == a && m.recipient == b) || (m.sender == b && m.recipient == a)))
  {
    if |messages| == 0 then []
    else
      var m := messages[|messages| - 1];
      var rest := Between(messages[..|messages| - 1], a, b);
      assert forall x :: x in messages <==> x in messages[..|messages| - 1] || x == m;
      if (m.sender == a && m.recipient == b) || (m.sender == b && m.recipient == a) then rest + [m] else rest
  }

  /** Ascending creation time, written as a descending sort on its negation. */
  function OlderFirst(m: Message): int
  {
    -m.createdAt
  }

  /** getMessages: the exchange between the two users, oldest first. */
  function Conversation(messages: seq<Message>, caller: UserId, other: UserId): seq<Message>
  {
    SortDesc(Between(messages, caller, other), OlderFirst)
  }

  /**
   * The conversation holds exactly the messages between the two users, each
   * as often as it was stored, ordered by ascending creation time, and it
   * does not depend on which of the two asks.
   */
  lemma ConversationFacts(messages: seq<Message>, caller: UserId, other: UserId)
    ensures var r := Conversation(messages, caller, other);
      && multiset(r) == multiset(Between(messages, caller, other))
      && (forall m :: m in r <==> (m in messages &&
            ((m.sender == caller && m.recipient == other) || (m.sender == other && m.recipient == caller))))
      && (forall i, j :: 0 <= i < j < |r| ==> r[i].createdAt <= r[j].createdAt)
  {
    var b := Between(messages, caller, other);
    var r := Conversation(messages, caller, other);
    SortDescCorrect(b, OlderFirst);
    forall m ensures m in r <==> m in b {
      assert m in r <==> m in multiset(r);
      assert m in b <==> m in multiset(b);
    }
    forall i, j | 0 <= i < j < |r| ensures r[i].createdAt <= r[j].createdAt {
      assert OlderFirst(r[i]) >= OlderFirst(r[j]);
    }
  }

  /** What the store keeps: a well-formed friend graph, a consistent request table, and requests between known users. */
  ghost predicate StoreInvariant(users: set<UserId>, friends: map<UserId, seq<UserId>>, requests: seq<FriendRequest>, nextId: nat)
  {
    && FriendGraph(users, friends)
    && RequestTable(requests, nextId)
    && (forall i :: 0 <= i < |requests| ==> requests[i].sender in users && requests[i].recipient in users)
  }

  /** Changing one request's status keeps the request table and the requests' parties. */
  lemma StatusUpdateKeeps(users: set<UserId>, requests: seq<FriendRequest>, nextId: nat, i: nat, st: Status)
    requires RequestTable(requests, nextId) && i < |requests|
    requires forall j :: 0 <= j < |requests| ==> requests[j].sender in users && requests[j].recipient in users
    ensures var rs := requests[i := requests[i].(status := st)];
      && RequestTable(rs, nextId)
      && (forall j :: 0 <= j < |rs| ==> rs[j].sender in users && rs[j].recipient in users)
  {
    var rs := requests[i := requests[i].(status := st)];
    assert forall j :: 0 <= j < |rs| ==>
      rs[j].id == requests[j].id && rs[j].sender == requests[j].sender && rs[j].recipient == requests[j].recipient;
  }

  /** Answering a request keeps the store's invariant, whether it is accepted or rejected. */
  lemma RespondKeeps(users: set<UserId>, friends: map<UserId, seq<UserId>>, requests: seq<FriendRequest>, nextId: nat,
                     i: nat, accept: bool)
    requires StoreInvariant(users, friends, requests, nextId) && i < |requests|
    ensures var r := requests[i];
      StoreInvariant(users, if accept then Befriend(friends, r.sender, r.recipient) else friends,
                     requests[i := r.(status := if accept then Accepted else Rejected)], nextId)
  {
    var r := requests[i];
    StatusUpdateKeeps(users, requests, nextId, i, if accept then Accepted else Rejected);
    if accept {
      BefriendKeeps(users, friends, r.sender, r.recipient);
    }
  }

  /** The users and collections the social handlers work on. */
  class SocialStore {
    var users: set<UserId>
    var friends: map<UserId, seq<UserId>>
    var requests: seq<FriendRequest>
    var nextRequestId: nat
    var messages: seq<Message>

    ghost predicate Valid()
      reads this
    {
      StoreInvariant(users, friends, requests, nextRequestId)
    }

    constructor (known: set<UserId>)
      ensures Valid() && users == known && requests == [] && messages == []
      ensures forall u :: u in known ==> friends[u] == []
    {
      users := known;
      friends := map u | u in known :: [];
      requests := [];
      nextRequestId := 0;
      messages := [];
    }

    /**
     * sendMessage: 400 without a recipient or content, 500 when the recipient
     * id cannot be cast to an ObjectId (the lookup throws), 404 for an unknown
     * recipient, otherwise store the message.
     */
    method SendMessage(caller: UserId, recipientId: string, content: string, now: int) returns (status: int)
      requires Valid()
      modifies this
      ensures Valid()
      ensures users == old(users) && friends == old(friends) && requests == old(requests)
      ensures nextRequestId == old(nextRequestId)
      ensures recipientId == "" || content == "" ==> status == 400 && messages == old(messages)
      ensures recipientId != "" && content != "" && !IsObjectId(recipientId) ==> status == 500 && messages == old(messages)
      ensures recipientId != "" && content != "" && IsObjectId(recipientId) && recipientId !in users ==>
        status == 404 && messages == old(messages)
      ensures recipientId != "" && content != "" && IsObjectId(recipientId) && recipientId in users ==>
        status == 201 && messages == old(messages) + [Message(caller, recipientId, content, now)]
    {
      if recipientId == "" || content == "" {
        return 400;
      }
      if !IsObjectId(recipientId) {
        return 500;
      }
      if recipientId !in users {
        return 404;
      }
      messages := messages + [Message(caller, recipientId, content, now)];
      status := 201;
    }

    /** sendFriendRequest: on 201 a pending request is stored; nothing else changes in any case. */
    method SendFriendRequest(caller: UserId, recipientId: string) returns (status: int)
      requires Valid()
      modifies this
      ensures Valid()
      ensures users == old(users) && friends == old(friends) && messages == old(messages)
      ensures status == SendStatus(old(users), old(friends), old(requests), caller, recipientId)
      ensures status == 201 ==>
        requests == old(requests) + [FriendRequest(old(nextRequestId), caller, recipientId, Pending)]
      ensures status != 201 ==> requests == old(requests)
    {
      status := SendStatus(users, friends, requests, caller, recipientId);
      if status == 201 {
        var r := FriendRequest(nextRequestId, caller, recipientId, Pending);
        requests := requests + [r];
        nextRequestId := nextRequestId + 1;
        assert forall i :: 0 <= i < |requests| - 1 ==>
          requests[i].sender != caller || requests[i].recipient != recipientId;
      }
    }

    /**
     * respondToFriendRequest: 400 for an action other than 'accept' or
     * 'reject', 404 unless a pending request with that id is addressed to
     * the caller; otherwise the request is accepted (and the two become
     * friends) or rejected (and the friend lists stay as they were).
     */
    method RespondToFriendRequest(caller: UserId, requestId: nat, action: string) returns (status: int)
      requires Valid()
      modifies this
      ensures Valid()
      ensures users == old(users) && messages == old(messages) && nextRequestId == old(nextRequestId)
      ensures action != "accept" && action != "reject" ==>
        status == 400 && requests == old(requests) && friends == old(friends)
      ensures (action == "accept" || action == "reject") && FindPending(old(requests), requestId, caller) == -1 ==>
        status == 404 && requests == old(requests) && friends == old(friends)
      ensures (action == "accept" || action == "reject") && FindPending(old(requests), requestId, caller) >= 0 ==>
        var i := FindPending(old(requests), requestId, caller);
        var r := old(requests)[i];
        && status == 200
        && requests == old(requests)[i := r.(status := if action == "accept" then Accepted else Rejected)]
        && friends == (if action == "accept" then Befriend(old(friends), r.sender, r.recipient) else old(friends))
    {
      if action != "accept" && action != "reject" {
        return 400;
      }
      var i := FindPending(requests, requestId, caller);
      if i < 0 {
        return 404;
      }
      var request := requests[i];
      RespondKeeps(users, friends, requests, nextRequestId, i, action == "accept");
      requests := requests[i := request.(status := if action == "accept" then Accepted else Rejected)];
      if action == "accept" {
        friends := Befriend(friends, request.sender, request.recipient);
      }
      status := 200;
    }

    /**
     * removeFriend: each user is pulled from the other's list. A friend id
     * that cannot be cast to an ObjectId makes the first update throw, so
     * the reply is 500 and no list changes.
     */
    method RemoveFriend(caller: UserId, friendId: UserId) returns (status: int)
      requires Valid()
      modifies this
      ensures Valid()
      ensures users == old(users) && requests == old(requests) && messages == old(messages)
      ensures nextRequestId == old(nextRequestId)
      ensures !IsObjectId(friendId) ==> status == 500 && friends == old(friends)
      ensures IsObjectId(friendId) ==> status == 200 && friends == Unfriend(old(friends), caller, friendId)
    {
      if !IsObjectId(friendId) {
        return 500;
      }
      UnfriendKeeps(users, friends, caller, friendId);
      friends := Unfriend(friends, caller, friendId);
      status := 200;
    }

    /** getConversations: the known users the caller has exchanged a message with. */
    method GetConversations(caller: UserId) returns (conversations: set<UserId>)
      ensures forall u :: u in conversations <==>
        u in users && exists i :: 0 <= i < |messages| && Involves(caller, messages[i]) && Counterpart(caller, messages[i]) == u
    {
      var conversationUsers: set<UserId> := {};
      var i := 0;
      while i < |messages|
        invariant 0 <= i <= |messages|
        invariant forall u :: u in conversationUsers <==>
          exists j :: 0 <= j < i && Involves(caller, messages[j]) && Counterpart(caller, messages[j]) == u
      {
        var msg := messages[i];
        if Involves(caller, msg) {
          conversationUsers := conversationUsers + {Counterpart(caller, msg)};
        }
        i := i + 1;
      }
      conversations := conversationUsers * users;
    }
  }
}
