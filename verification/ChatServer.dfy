/**
 * The chat server's threads as one step machine. Thread t serves one client, a sender or a
 * receiver, and owns the User with the same number. A step is one call on a lock or a semaphore,
 * one look at shared data, or one message taken from or given to the client.
 */
module ChatServer {
  import opened Messages
  import opened Options

  /** How far a thread is with a lock: at the call, inside, or inside with the work done. */
  datatype Phase = Want | Held | Finished

  datatype Pc =
    | Start                                         // before the next request of the client
    | Removing(phase: Phase, next: Option<string>)  // remove_member, then maybe join `next`
    | Finding(phase: Phase, name: string)           // find_or_create_room
    | Adding(phase: Phase)                          // add_member
    | CastWant(text: string)                        // broadcast_message, at its Guard
    | CastHeld(text: string)
    | Cast(text: string, left: set<nat>)            // in the loop; `left` are still to come
    | Pushing(text: string, left: set<nat>, to: nat, phase: Phase)  // enqueue for `to`
    | Posted(text: string, left: set<nat>, to: nat) // sem_post done, queue lock still held
    | Waiting                                       // dequeue: in sem_timedwait
    | Checking                                      // the wait succeeded; about to read empty()
    | PopWant
    | PopHeld
    | Popped(msg: Message)
    | Sending(msg: Message)                         // about to send to the client
    | Stopped

  /** `joinedAt` and `sent` record where in the room's log a receiver joined and what it was sent. */
  datatype Thread = Thread(name: string, receiver: bool, room: Option<nat>, pc: Pc, joinedAt: nat, sent: seq<Message>)

  /** `log` records the broadcasts of the room, in the order in which they took its lock. */
  datatype Room = Room(name: string, members: set<nat>, lock: Option<nat>, log: seq<Entry>)

  datatype Entry = Entry(sender: string, text: string)

  /** The message queue of a user. */
  datatype Box = Box(queue: seq<Message>, sem: nat, lock: Option<nat>)

  datatype State = State(threads: seq<Thread>, boxes: seq<Box>, rooms: seq<Room>, names: map<string, nat>, lock: Option<nat>)

  // ----- what a program counter means

  predicate HoldsRoom(pc: Pc) {
    match pc
    case Removing(phase, _) => phase != Want
    case Adding(phase) => phase != Want
    case CastHeld(_) => true
    case _ => Casting(pc)
  }

  predicate Casting(pc: Pc) {
    pc.Cast? || pc.Pushing? || pc.Posted?
  }

  predicate HoldsServer(pc: Pc) {
    pc.Finding? && pc.phase != Want
  }

  /** The user whose queue lock thread `t` holds. */
  function BoxHeld(t: nat, pc: Pc): Option<nat> {
    match pc
    case Pushing(_, _, to, phase) => if phase == Want then None else Some(to)
    case Posted(_, _, to) => Some(to)
    case PopHeld => Some(t)
    case Popped(_) => Some(t)
    case _ => None
  }

  predicate HasToken(pc: Pc) {
    pc.Checking? || pc.PopWant? || pc.PopHeld?
  }

  /** Pushed a message and not yet posted. */
  predicate Unposted(pc: Pc) {
    pc.Pushing? && pc.phase == Finished
  }

  /** The members a broadcast has still to reach. */
  function Left(pc: Pc): set<nat> {
    match pc
    case Cast(_, left) => left
    case Pushing(_, left, _, _) => left
    case Posted(_, left, _) => left
    case _ => {}
  }

  function InHand(pc: Pc): seq<Message> {
    match pc
    case Popped(msg) => [msg]
    case Sending(msg) => [msg]
    case _ => []
  }

  /** Between leaving a room and being in the next. */
  predicate Away(th: Thread) {
    || (th.pc.Removing? && th.pc.phase == Finished)
    || th.pc.Finding?
    || (th.pc.Adding? && th.pc.phase != Finished)
    || (th.receiver && (th.pc.Start? || th.pc.Stopped?))
  }

  /** A receiver that is in its room, for good. */
  predicate Joined(th: Thread) {
    th.receiver && !Away(th)
  }

  /** Senders and receivers run different programs. */
  predicate OwnProgram(th: Thread) {
    match th.pc
    case Start => true
    case Finding(_, _) => true
    case Adding(_) => true
    case Stopped => true
    case Removing(_, _) => !th.receiver
    case CastWant(_) => !th.receiver
    case CastHeld(_) => !th.receiver
    case Cast(_, _) => !th.receiver
    case Pushing(_, _, _, _) => !th.receiver
    case Posted(_, _, _) => !th.receiver
    case _ => th.receiver
  }

  predicate NeedsRoom(pc: Pc) {
    pc.Removing? || pc.Adding? || pc.CastWant? || HoldsRoom(pc)
  }

  // ----- steps

  /** The choices a step leaves to the client, the set order and the clock. */
  datatype Choice = Join(name: string) | Leave | Post(text: string) | Quit | Pick(to: nat) | Timeout | Go

  function Goto(s: State, t: nat, pc: Pc): State
    requires t < |s.threads|
  {
    s.(threads := s.threads[t := s.threads[t].(pc := pc)])
  }

  function SetRoom(s: State, r: nat, room: Room): State
    requires r < |s.rooms|
  {
    s.(rooms := s.rooms[r := room])
  }

  function SetBox(s: State, u: nat, box: Box): State
    requires u < |s.boxes|
  {
    s.(boxes := s.boxes[u := box])
  }

  /** References between the parts of the state stay in range. */
  ghost predicate InRange(s: State, t: nat) {
    && |s.boxes| == |s.threads| && t < |s.threads|
    && (s.threads[t].room.Some? ==> s.threads[t].room.value < |s.rooms|)
    && (NeedsRoom(s.threads[t].pc) ==> s.threads[t].room.Some?)
    && (s.threads[t].pc.Pushing? || s.threads[t].pc.Posted? ==> s.threads[t].pc.to < |s.boxes|)
    && (forall u :: u in Left(s.threads[t].pc) ==> u < |s.threads|)
    && (s.threads[t].pc.Finding? && s.threads[t].pc.phase == Finished ==> s.threads[t].pc.name in s.names)
  }

  /** A sender between requests, or a receiver before its join. */
  ghost predicate Request(s: State, t: nat, c: Choice, s': State)
    requires t < |s.threads|
  {
    var th := s.threads[t];
    match c
    case Join(name) =>
      s' == Goto(s, t, if !th.receiver && th.room.Some? then Removing(Want, Some(name)) else Finding(Want, name))
    case Leave =>
      !th.receiver && s' == Goto(s, t, if th.room.Some? then Removing(Want, None) else Start)
    case Post(text) =>
      !th.receiver && s' == Goto(s, t, if th.room.Some? then CastWant(text) else Start)
    case Quit => s' == Goto(s, t, Stopped)
    case _ => false
  }

  ghost predicate TakeRoom(s: State, t: nat, pc: Pc, s': State)
    requires InRange(s, t) && s.threads[t].room.Some?
  {
    var r := s.threads[t].room.value;
    s.rooms[r].lock == None && s' == SetRoom(Goto(s, t, pc), r, s.rooms[r].(lock := Some(t)))
  }

  ghost predicate DropRoom(s: State, t: nat, pc: Pc, s': State)
    requires InRange(s, t) && s.threads[t].room.Some?
  {
    var r := s.threads[t].room.value;
    s' == SetRoom(Goto(s, t, pc), r, s.rooms[r].(lock := None))
  }

  ghost predicate TakeBox(s: State, t: nat, u: nat, pc: Pc, s': State)
    requires t < |s.threads| && u < |s.boxes|
  {
    s.boxes[u].lock == None && s' == SetBox(Goto(s, t, pc), u, s.boxes[u].(lock := Some(t)))
  }

  ghost predicate DropBox(s: State, t: nat, u: nat, pc: Pc, s': State)
    requires t < |s.threads| && u < |s.boxes|
  {
    s' == SetBox(Goto(s, t, pc), u, s.boxes[u].(lock := None))
  }

  /** What the room's broadcast enqueues for one member. */
  function PostFor(s: State, t: nat): Message
    requires InRange(s, t) && s.threads[t].pc.Pushing?
    requires s.threads[t].room.Some?
  {
    Broadcast(s.rooms[s.threads[t].room.value].name, s.threads[t].name, s.threads[t].pc.text)
  }

  ghost predicate RemoveStep(s: State, t: nat, s': State)
    requires InRange(s, t) && s.threads[t].pc.Removing?
  {
    var r, next := s.threads[t].room.value, s.threads[t].pc.next;
    match s.threads[t].pc.phase
    case Want => TakeRoom(s, t, Removing(Held, next), s')
    case Held =>
      s' == SetRoom(Goto(s, t, Removing(Finished, next)), r, s.rooms[r].(members := s.rooms[r].members - {t}))
    case Finished => DropRoom(s, t, if next.Some? then Finding(Want, next.value) else Start, s')
  }

  ghost predicate FindStep(s: State, t: nat, s': State)
    requires InRange(s, t) && s.threads[t].pc.Finding?
  {
    var name := s.threads[t].pc.name;
    match s.threads[t].pc.phase
    case Want => s.lock == None && s' == Goto(s, t, Finding(Held, name)).(lock := Some(t))
    case Held =>
      var u := Goto(s, t, Finding(Finished, name));
      s' == if name in s.names then u
            else u.(rooms := s.rooms + [Room(name, {}, None, [])], names := s.names[name := |s.rooms|])
    case Finished =>
      s' == s.(threads := s.threads[t := s.threads[t].(pc := Adding(Want), room := Some(s.names[name]))], lock := None)
  }

  ghost predicate AddStep(s: State, t: nat, s': State)
    requires InRange(s, t) && s.threads[t].pc.Adding?
  {
    var r := s.threads[t].room.value;
    match s.threads[t].pc.phase
    case Want => TakeRoom(s, t, Adding(Held), s')
    case Held =>
      s' == s.(threads := s.threads[t := s.threads[t].(pc := Adding(Finished), joinedAt := |s.rooms[r].log|)],
               rooms := s.rooms[r := s.rooms[r].(members := s.rooms[r].members + {t})])
    case Finished => DropRoom(s, t, if s.threads[t].receiver then Waiting else Start, s')
  }

  /** The loop of broadcast_message takes the members in any order. */
  ghost predicate CastStep(s: State, t: nat, c: Choice, s': State)
    requires InRange(s, t) && s.threads[t].pc.Cast?
  {
    var Cast(text, left) := s.threads[t].pc;
    if left == {} then DropRoom(s, t, Start, s')
    else
      c.Pick? && c.to in Left(s.threads[t].pc) &&
      s' == Goto(s, t, if s.threads[c.to].name == s.threads[t].name then Cast(text, left - {c.to})
                       else Pushing(text, left, c.to, Want))
  }

  ghost predicate PushStep(s: State, t: nat, s': State)
    requires InRange(s, t) && s.threads[t].pc.Pushing?
  {
    var Pushing(text, left, to, phase) := s.threads[t].pc;
    var box := s.boxes[to];
    match phase
    case Want => TakeBox(s, t, to, Pushing(text, left, to, Held), s')
    case Held =>
      s' == SetBox(Goto(s, t, Pushing(text, left - {to}, to, Finished)), to, box.(queue := box.queue + [PostFor(s, t)]))
    case Finished => s' == SetBox(Goto(s, t, Posted(text, left, to)), to, box.(sem := box.sem + 1))
  }

  ghost predicate DequeueStep(s: State, t: nat, c: Choice, s': State)
    requires InRange(s, t)
  {
    var th, box := s.threads[t], s.boxes[t];
    match th.pc
    case Waiting =>
      || (c == Timeout && s' == s)
      || (box.sem > 0 && s' == SetBox(Goto(s, t, Checking), t, box.(sem := box.sem - 1)))
    case Checking => s' == Goto(s, t, if box.queue == [] then Waiting else PopWant)
    case PopWant => TakeBox(s, t, t, PopHeld, s')
    case PopHeld =>
      box.queue != [] && s' == SetBox(Goto(s, t, Popped(box.queue[0])), t, box.(queue := box.queue[1..]))
    case Popped(msg) => DropBox(s, t, t, Sending(msg), s')
    case Sending(msg) =>
      s' == s.(threads := s.threads[t := th.(pc := Waiting, sent := th.sent + [msg])])
    case _ => false
  }

  /** One step of thread `t`. */
  ghost predicate Step(s: State, t: nat, c: Choice, s': State)
    requires InRange(s, t)
  {
    var th := s.threads[t];
    match th.pc
    case Start => Request(s, t, c, s')
    case Removing(_, _) => RemoveStep(s, t, s')
    case Finding(_, _) => FindStep(s, t, s')
    case Adding(_) => AddStep(s, t, s')
    case CastWant(text) => TakeRoom(s, t, CastHeld(text), s')
    case CastHeld(text) =>
      var room := s.rooms[th.room.value];
      s' == SetRoom(Goto(s, t, Cast(text, room.members)), th.room.value, room.(log := room.log + [Entry(th.name, text)]))
    case Cast(_, _) => CastStep(s, t, c, s')
    case Pushing(_, _, _, _) => PushStep(s, t, s')
    case Posted(text, left, to) => DropBox(s, t, to, Cast(text, left), s')
    case Stopped => false
    case _ => DequeueStep(s, t, c, s')
  }

  // ----- the invariant

  /** What a user called `name` hears of one broadcast. */
  function News(room: string, e: Entry, name: string): seq<Message> {
    if e.sender == name then [] else [Broadcast(room, e.sender, e.text)]
  }

  /** What a user called `name` hears of the entries of `log` from `from` to `to`. */
  function Heard(room: string, log: seq<Entry>, from: nat, to: nat, name: string): seq<Message>
    requires from <= to <= |log|
  {
    if from == to then [] else Heard(room, log, from, to - 1, name) + News(room, log[to - 1], name)
  }

  /** `got` is what a user called `name` heard in the room from `from` to `to`. */
  ghost predicate IsHeard(got: seq<Message>, room: Room, from: nat, to: int, name: string) {
    from <= to <= |room.log| && got == Heard(room.name, room.log, from, to, name)
  }

  /** 1 while the broadcast in progress in room `r` has still to reach `u`. */
  function Pending(s: State, r: nat, u: nat): nat
    requires r < |s.rooms|
  {
    var lock := s.rooms[r].lock;
    if lock.Some? && lock.value < |s.threads| && u in Left(s.threads[lock.value].pc) then 1 else 0
  }

  ghost predicate ThreadOk(s: State, t: nat) {
    && InRange(s, t)
    && var th := s.threads[t];
    && OwnProgram(th)
    && (HoldsServer(th.pc) ==> s.lock == Some(t))
    && (BoxHeld(t, th.pc).Some? ==> s.boxes[BoxHeld(t, th.pc).value].lock == Some(t))
    && (th.pc.Pushing? && th.pc.phase != Finished ==> th.pc.to in th.pc.left && s.threads[th.pc.to].name != th.name)
    && (HoldsRoom(th.pc) ==> s.rooms[th.room.value].lock == Some(t))
    && (Casting(th.pc) ==> CastOk(s, t))
    && (Joined(th) ==> th.room.Some? && t in s.rooms[th.room.value].members)
  }

  /** The broadcast in progress is the last entry of the log and goes to members only. */
  ghost predicate CastOk(s: State, t: nat)
    requires InRange(s, t) && Casting(s.threads[t].pc)
  {
    var th := s.threads[t];
    var room := s.rooms[th.room.value];
    && Left(th.pc) <= room.members
    && room.log != [] && room.log[|room.log| - 1] == Entry(th.name, th.pc.text)
  }

  ghost predicate RoomOk(s: State, r: nat)
    requires r < |s.rooms|
  {
    var room := s.rooms[r];
    && (room.lock.Some? ==>
          && room.lock.value < |s.threads|
          && HoldsRoom(s.threads[room.lock.value].pc) && s.threads[room.lock.value].room == Some(r))
    && (forall u :: u in room.members ==> u < |s.threads| && s.threads[u].room == Some(r) && !Away(s.threads[u]))
    && room.name in s.names && s.names[room.name] == r
  }

  ghost predicate BoxOk(s: State, u: nat)
    requires u < |s.boxes| == |s.threads|
  {
    var box := s.boxes[u];
    && (box.lock.Some? ==> box.lock.value < |s.threads| && BoxHeld(box.lock.value, s.threads[box.lock.value].pc) == Some(u))
    && |box.queue| == box.sem + (if HasToken(s.threads[u].pc) then 1 else 0)
         + (if box.lock.Some? && Unposted(s.threads[box.lock.value].pc) then 1 else 0)
  }

  ghost predicate ServerOk(s: State) {
    && (s.lock.Some? ==> s.lock.value < |s.threads| && HoldsServer(s.threads[s.lock.value].pc))
    && forall n :: n in s.names ==> s.names[n] < |s.rooms| && s.rooms[s.names[n]].name == n
  }

  /** Sent, in hand and queued together are what a receiver heard since it joined. */
  ghost predicate HeardOk(s: State, u: nat)
  {
    && InRange(s, u)
    && var th, queue := s.threads[u], s.boxes[u].queue;
    if !th.receiver then true
    else if !Joined(th) || th.room.None? then th.sent == [] && queue == []
    else
      var room := s.rooms[th.room.value];
      IsHeard(th.sent + InHand(th.pc) + queue, room, th.joinedAt, |room.log| - Pending(s, th.room.value, u), th.name)
  }

  ghost predicate Inv(s: State) {
    && |s.boxes| == |s.threads|
    && (forall t :: 0 <= t < |s.threads| ==> ThreadOk(s, t))
    && (forall r :: 0 <= r < |s.rooms| ==> RoomOk(s, r))
    && (forall u :: 0 <= u < |s.boxes| ==> BoxOk(s, u))
    && ServerOk(s)
    && (forall u :: 0 <= u < |s.threads| ==> HeardOk(s, u))
  }
}
