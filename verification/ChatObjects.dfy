/**
 * The queue, the room, the server and a sender's session as the objects they are, each method as
 * its caller sees it when no other thread comes in between.
 */
module ChatObjects {
  import opened Messages
  import opened Options

  class MessageQueue {
    var messages: seq<Message>
    var avail: nat

    ghost predicate Valid()
      reads this
    {
      avail == |messages|
    }

    constructor ()
      ensures Valid() && messages == []
    {
      messages, avail := [], 0;
    }

    method Enqueue(msg: Message)
      requires Valid()
      modifies this
      ensures Valid() && messages == old(messages) + [msg]
    {
      messages := messages + [msg];
      avail := avail + 1;
    }

    /** The oldest message, unless the wait for one times out. */
    method Dequeue(timedOut: bool) returns (msg: Option<Message>)
      requires Valid()
      modifies this
      ensures Valid()
      ensures msg.None? <==> timedOut || old(messages) == []
      ensures old(messages) == (if msg.Some? then [msg.value] else []) + messages
    {
      msg := None;
      if avail > 0 && !timedOut {
        avail := avail - 1;
        if messages != [] {
          msg := Some(messages[0]);
          messages := messages[1..];
        }
      }
    }
  }

  class User {
    const username: string
    const mqueue: MessageQueue

    constructor (username: string)
      ensures this.username == username && fresh(mqueue) && mqueue.Valid() && mqueue.messages == []
    {
      this.username := username;
      mqueue := new MessageQueue();
    }
  }

  /** What a broadcast by `sender` in room `name` appends to the queue of `username`. */
  function Delivery(name: string, sender: string, text: string, username: string): seq<Message> {
    if username == sender then [] else [Broadcast(name, sender, text)]
  }

  class Room {
    const name: string
    var members: set<User>

    ghost function Queues(): set<MessageQueue>
      reads this
    {
      set u | u in members :: u.mqueue
    }

    /** Every user has a queue of its own. */
    ghost predicate Valid()
      reads this, Queues()
    {
      && (forall u :: u in members ==> u.mqueue.Valid())
      && forall u, v :: u in members && v in members && u.mqueue == v.mqueue ==> u == v
    }

    constructor (name: string)
      ensures this.name == name && members == {} && Valid()
    {
      this.name := name;
      members := {};
    }

    method AddMember(user: User)
      requires Valid() && user.mqueue.Valid()
      requires forall u :: u in members && u.mqueue == user.mqueue ==> u == user
      modifies this
      ensures Valid() && members == old(members) + {user}
    {
      members := members + {user};
    }

    method RemoveMember(user: User)
      requires Valid()
      modifies this
      ensures Valid() && members == old(members) - {user}
    {
      members := members - {user};
    }

    /** Appends the delivery to the queue of each member of another name, and changes nothing else. */
    method BroadcastMessage(sender: string, text: string)
      requires Valid()
      modifies Queues()
      ensures Valid()
      ensures forall u :: u in members ==>
        u.mqueue.messages == old(u.mqueue.messages) + Delivery(name, sender, text, u.username)
    {
      var left := members;
      while left != {}
        invariant left <= members && Valid()
        invariant forall u :: u in left ==> u.mqueue.messages == old(u.mqueue.messages)
        invariant forall u :: u in members && u !in left ==>
          u.mqueue.messages == old(u.mqueue.messages) + Delivery(name, sender, text, u.username)
        decreases |left|
      {
        var user :| user in left;
        if user.username != sender {
          user.mqueue.Enqueue(Message(TAG_DELIVERY, Strip(name) + ":" + Strip(sender) + ":" + Strip(text)));
        }
        left := left - {user};
      }
    }
  }

  class Server {
    var rooms: map<string, Room>

    ghost function Queues(): set<MessageQueue>
      reads this, rooms.Values
    {
      set r, u | r in rooms.Values && u in r.members :: u.mqueue
    }

    /** Each name has one room, which bears it; each user has a queue of its own. */
    ghost predicate Valid()
      reads this, rooms.Values, Queues()
    {
      && (forall n :: n in rooms ==> rooms[n].name == n)
      && (forall r, u :: r in rooms.Values && u in r.members ==> u.mqueue.Valid())
      && forall r, q, u, v :: r in rooms.Values && q in rooms.Values && u in r.members && v in q.members ==>
           u.mqueue == v.mqueue ==> u == v
    }

    constructor ()
      ensures Valid() && rooms == map[]
    {
      rooms := map[];
    }

    method FindOrCreateRoom(name: string) returns (room: Room)
      requires Valid()
      modifies this
      ensures Valid() && room.name == name && rooms == old(rooms)[name := room]
      ensures room in rooms.Values && forall r :: r in rooms.Values ==> r == room || r in old(rooms.Values)
      ensures name in old(rooms) ==> rooms == old(rooms)
      ensures name !in old(rooms) ==> fresh(room) && room.members == {} && room.Valid()
    {
      if name in rooms {
        room := rooms[name];
      } else {
        room := new Room(name);
        rooms := rooms[name := room];
      }
      assert rooms[name] == room;
    }
  }

  const TAG_ERR := "err"
  const TAG_OK := "ok"
  const TAG_JOIN := "join"
  const TAG_LEAVE := "leave"
  const TAG_QUIT := "quit"

  /** What the server keeps for one logged-in sender. */
  class Session {
    const server: Server
    const user: User
    var room: Option<Room>

    /** The user's queue is its own, and it is in no room but the one kept. */
    ghost predicate Valid()
      reads this, server, server.rooms.Values, server.Queues(), user.mqueue
    {
      && server.Valid() && user.mqueue.Valid()
      && (room.Some? ==> room.value in server.rooms.Values)
      && (forall r, u :: r in server.rooms.Values && u in r.members && u.mqueue == user.mqueue ==> u == user)
      && (forall r :: r in server.rooms.Values && user in r.members ==> room == Some(r))
    }

    constructor (server: Server, username: string)
      requires server.Valid()
      ensures Valid() && room == None && this.server == server && user.username == username && fresh(user)
    {
      this.server, room := server, None;
      user := new User(username);
    }

    /** Out of the room kept, which stays kept. */
    method LeaveRoom()
      requires Valid()
      modifies server.rooms.Values
      ensures Valid()
      ensures forall r :: r in server.rooms.Values ==> r.members == old(r.members) - {user}
    {
      if room.Some? {
        room.value.RemoveMember(user);
      }
    }

    /** Out of the room kept, if any, and into the one named. */
    method Join(name: string)
      requires Valid()
      modifies this`room, server, server.rooms.Values
      ensures Valid() && name in server.rooms && room == Some(server.rooms[name])
      ensures server.rooms == old(server.rooms)[name := server.rooms[name]]
      ensures name in old(server.rooms) ==> server.rooms == old(server.rooms)
      ensures name !in old(server.rooms) ==> server.rooms[name].members == {user}
      ensures forall r :: r in old(server.rooms.Values) ==>
        r.members == if r.name == name then old(r.members) + {user} else old(r.members) - {user}
    {
      LeaveRoom();
      EnterRoom(name);
    }

    method EnterRoom(name: string)
      requires Valid() && forall r :: r in server.rooms.Values ==> user !in r.members
      modifies this`room, server, server.rooms.Values
      ensures Valid() && name in server.rooms && room == Some(server.rooms[name])
      ensures server.rooms == old(server.rooms)[name := server.rooms[name]]
      ensures name in old(server.rooms) ==> server.rooms == old(server.rooms)
      ensures name !in old(server.rooms) ==> server.rooms[name].members == {user}
      ensures forall r :: r in old(server.rooms.Values) ==>
        r.members == old(r.members) + if r.name == name then {user} else {}
    {
      var found := server.FindOrCreateRoom(name);
      room := Some(found);
      Enter(found);
    }

    method Enter(found: Room)
      requires Valid() && room == Some(found) && forall r :: r in server.rooms.Values ==> user !in r.members
      modifies found
      ensures Valid() && found.members == old(found.members) + {user}
    {
      found.AddMember(user);
    }

    /** Reaches the members of the room kept, even after leaving it. */
    method Post(text: string)
      requires Valid() && room.Some?
      modifies server.Queues()
      ensures Valid()
      ensures forall r, u :: r in server.rooms.Values && u in r.members ==>
        u.mqueue.messages == old(u.mqueue.messages) +
          if u in room.value.members then Delivery(room.value.name, user.username, text, u.username) else []
    {
      room.value.BroadcastMessage(user.username, text);
    }

    /**
     * Serves one request; `None` is a failed receive. A join moves the user, a leave takes it out
     * of its room, a post reaches the other members of the room kept; nothing else changes. Any
     * tag the server does not know posts.
     */
    method Serve(request: Option<Message>) returns (reply: Message, going: bool)
      requires Valid()
      modifies this`room, server, server.rooms.Values, server.Queues()
      ensures Valid()
      ensures going <==> request.Some? && request.value.tag != "err" && request.value.tag != "quit"
      ensures request.None? ==> reply == Message("err", "error in receiving message")
      ensures request.Some? && request.value.tag == "err" ==> reply == Message("err", "error in recieve of message")
      ensures request.Some? && request.value.tag == "quit" ==> reply == Message("ok", "bye")
      ensures Asks(request, "join") ==> reply == Message("ok", "joined room")
      ensures Asks(request, "leave") ==>
        reply == if old(room).Some? then Message("ok", "left room") else Message("err", "not in a room")
      ensures Posts(request) ==>
        reply == if old(room).Some? then Message("ok", "message sent") else Message("err", "not in a room")
      ensures Asks(request, "join") ==> request.value.data in server.rooms && room == Some(server.rooms[request.value.data])
      ensures Asks(request, "join") && request.value.data !in old(server.rooms) ==> room.value.members == {user}
      ensures server.rooms ==
        if Asks(request, "join") then old(server.rooms)[request.value.data := room.value] else old(server.rooms)
      ensures Asks(request, "join") && request.value.data in old(server.rooms) ==> server.rooms == old(server.rooms)
      ensures !Asks(request, "join") ==> room == old(room)
      ensures forall r :: r in old(server.rooms.Values) ==>
        r.members == if Asks(request, "join") && r.name == request.value.data then old(r.members) + {user}
                     else if Asks(request, "join") || Asks(request, "leave") then old(r.members) - {user}
                     else old(r.members)
      ensures forall r, u :: r in old(server.rooms.Values) && u in old(r.members) ==>
        u.mqueue.messages == old(u.mqueue.messages) +
          if Posts(request) && room.Some? && u in room.value.members
          then Delivery(room.value.name, user.username, request.value.data, u.username) else []
    {
      if request.None? {
        return Message("err", "error in receiving message"), false;
      }
      var msg := request.value;
      going := true;
      if msg.tag == TAG_ERR {
        reply, going := Message("err", "error in recieve of message"), false;
      } else if msg.tag == TAG_JOIN {
        Join(msg.data);
        reply := Message(TAG_OK, "joined room");
      } else if msg.tag == TAG_LEAVE {
        LeaveRoom();
        reply := if room.Some? then Message(TAG_OK, "left room") else Message(TAG_ERR, "not in a room");
      } else if msg.tag == TAG_QUIT {
        reply, going := Message(TAG_OK, "bye"), false;
      } else if room.None? {
        reply := Message(TAG_ERR, "not in a room");
      } else {
        Post(msg.data);
        reply := Message(TAG_OK, "message sent");
      }
    }
  }

  predicate Asks(request: Option<Message>, tag: string) {
    request.Some? && request.value.tag == tag
  }

  /** Neither of the four tags that the server knows. */
  predicate Posts(request: Option<Message>) {
    request.Some? && request.value.tag !in {"err", "join", "leave", "quit"}
  }

  // ----- what comes off the wire

  /** What a client that sends `tag` and `data` makes the server do. */
  method ServeClient(session: Session, tag: string, data: string, rest: seq<char>) returns (reply: Message, going: bool)
    requires session.Valid() && PlainText(tag) && PlainText(data) && |tag| + |data| + 2 <= 8191
    modifies session`room, session.server, session.server.rooms.Values, session.server.Queues()
    ensures session.Valid()
    ensures tag == "join" ==>
      && data + "\n" in session.server.rooms && session.user in session.server.rooms[data + "\n"].members
      && session.server.rooms[data + "\n"].name == data + "\n" && reply.tag == "ok" && going
    ensures tag == "leave" ==> forall r :: r in session.server.rooms.Values ==> session.user !in r.members
    ensures tag == "quit" ==> !going && reply.tag == "ok"
    ensures tag == "sendall" && old(session.room).Some? ==>
      && session.room == old(session.room) && session.room.value.members == old(session.room.value.members)
      && forall u :: u in old(session.room.value.members) ==>
           u.mqueue.messages == old(u.mqueue.messages) +
             if u.username == session.user.username then []
             else [Broadcast(session.room.value.name, session.user.username, data + "\n")]
    ensures reply.tag == "err" <==> tag == "err" || (old(session.room).None? && tag !in {"join", "quit"})
    ensures going <==> tag != "err" && tag != "quit"
  {
    SenderArrives(tag, data, rest);
    var request := Some(Received(Encode(Message(tag, data)) + rest));
    assert request == Some(Message(tag, data + "\n"));
    reply, going := session.Serve(request);
  }

  /** A failed receive ends the session with an error. */
  method ServeNothing(session: Session) returns (reply: Message, going: bool)
    requires session.Valid()
    modifies session`room, session.server, session.server.rooms.Values, session.server.Queues()
    ensures session.Valid() && session.room == old(session.room) && session.server.rooms == old(session.server.rooms)
    ensures forall r :: r in session.server.rooms.Values ==> r.members == old(r.members)
    ensures forall r, u :: r in session.server.rooms.Values && u in r.members ==> u.mqueue.messages == old(u.mqueue.messages)
    ensures reply.tag == "err" && !going
  {
    reply, going := session.Serve(None);
  }
}
