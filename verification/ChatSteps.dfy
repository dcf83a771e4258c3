/** Every step of the chat server keeps its invariant. */
module ChatSteps {
  import opened Messages
  import opened Options
  import opened ChatServer

  // ----- what a step of `t` may do to the others

  /** A step of `t` leaves alone what others have locked, and their membership. */
  ghost predicate Discreet(s: State, t: nat, s': State) {
    && t < |s.threads| == |s'.threads| == |s'.boxes| && |s.rooms| <= |s'.rooms|
    && (forall x :: 0 <= x < |s.threads| && x != t ==> s'.threads[x] == s.threads[x])
    && s'.threads[t].name == s.threads[t].name && s'.threads[t].receiver == s.threads[t].receiver
    && (forall r :: 0 <= r < |s.rooms| ==> RoomChange(s.rooms[r], t, s'.rooms[r]))
    && (forall u :: 0 <= u < |s.boxes| && u < |s'.boxes| ==> LockChange(s.boxes[u].lock, t, s'.boxes[u].lock))
    && LockChange(s.lock, t, s'.lock)
    && (forall n :: n in s.names ==> n in s'.names && s'.names[n] == s.names[n])
  }

  /** Only `t` takes a free lock or gives up its own. */
  ghost predicate LockChange(lock: Option<nat>, t: nat, lock': Option<nat>) {
    lock' == lock || (lock in {None, Some(t)} && lock' in {None, Some(t)})
  }

  ghost predicate RoomChange(room: Room, t: nat, room': Room) {
    && room'.name == room.name && LockChange(room.lock, t, room'.lock)
    && (room.lock.Some? && room.lock != Some(t) ==> room' == room)
    && room'.members - {t} == room.members - {t}
  }

  lemma OtherThreads(s: State, t: nat, s': State, x: nat)
    requires Inv(s) && Discreet(s, t, s') && x < |s.threads| && x != t
    ensures ThreadOk(s', x)
  {
    assert ThreadOk(s, x);
    var th := s.threads[x];
    if th.room.Some? {
      var r := th.room.value;
      assert RoomChange(s.rooms[r], t, s'.rooms[r]);
      assert x in s.rooms[r].members ==> x in s'.rooms[r].members - {t} by {
        assert x in s.rooms[r].members ==> x in s.rooms[r].members - {t};
      }
    }
  }

  lemma OtherRooms(s: State, t: nat, s': State, r: nat)
    requires Inv(s) && Discreet(s, t, s') && r < |s.rooms| && s'.rooms[r] == s.rooms[r]
    requires s.rooms[r].lock == Some(t) ==> HoldsRoom(s'.threads[t].pc) && s'.threads[t].room == Some(r)
    requires t in s.rooms[r].members ==> s'.threads[t].room == Some(r) && !Away(s'.threads[t])
    ensures RoomOk(s', r)
  {
    assert RoomOk(s, r);
  }

  lemma OtherBoxes(s: State, t: nat, s': State, u: nat)
    requires Inv(s) && Discreet(s, t, s') && u < |s.boxes| && s'.boxes[u] == s.boxes[u]
    requires u == t ==> HasToken(s'.threads[t].pc) == HasToken(s.threads[t].pc)
    requires s.boxes[u].lock == Some(t) ==>
      BoxHeld(t, s'.threads[t].pc) == Some(u) && Unposted(s'.threads[t].pc) == Unposted(s.threads[t].pc)
    ensures BoxOk(s', u)
  {
    assert BoxOk(s, u);
  }

  /** Nobody but `v` can tell the step from what it hears. */
  ghost predicate Quiet(s: State, t: nat, s': State, v: nat)
    requires Discreet(s, t, s')
  {
    && (forall u :: 0 <= u < |s.boxes| && u < |s'.boxes| && u != v ==> s'.boxes[u].queue == s.boxes[u].queue)
    && (forall r :: 0 <= r < |s.rooms| ==> s'.rooms[r].log == s.rooms[r].log)
    && Left(s'.threads[t].pc) - {v} == Left(s.threads[t].pc) - {v}
    && (forall r :: 0 <= r < |s.rooms| ==> s'.rooms[r].lock == s.rooms[r].lock || Left(s.threads[t].pc) == {})
    && (v != t ==> SameEars(s.threads[t], s'.threads[t]))
  }

  /** The thread has heard and kept the same. */
  ghost predicate SameEars(th: Thread, th': Thread) {
    th.receiver ==>
      && Joined(th') == Joined(th) && th'.sent == th.sent && InHand(th'.pc) == InHand(th.pc)
      && (Joined(th) ==> th'.room == th.room && th'.joinedAt == th.joinedAt)
  }

  lemma SamePending(s: State, t: nat, s': State, r: nat, u: nat)
    requires Inv(s) && Discreet(s, t, s') && r < |s.rooms|
    requires u in Left(s'.threads[t].pc) <==> u in Left(s.threads[t].pc)
    requires s'.rooms[r].lock == s.rooms[r].lock || (Left(s.threads[t].pc) == {} && u !in Left(s'.threads[t].pc))
    ensures Pending(s', r, u) == Pending(s, r, u)
  {
    assert RoomOk(s, r);
    assert RoomChange(s.rooms[r], t, s'.rooms[r]);
  }

  /** What `t` was sent, has in hand and has queued. */
  function Got(s: State, t: nat): seq<Message>
    requires t < |s.threads| && t < |s.boxes|
  {
    s.threads[t].sent + InHand(s.threads[t].pc) + s.boxes[t].queue
  }

  /** A receiver in the same room, which says the same, has got the same. */
  lemma HeardStays(s: State, s': State, u: nat)
    requires HeardOk(s, u) && InRange(s', u) && Got(s', u) == Got(s, u)
    requires var th, th' := s.threads[u], s'.threads[u];
      && th.receiver && th'.receiver && Joined(th) && Joined(th') && th.room.Some? && th'.room == th.room
      && th'.joinedAt == th.joinedAt && th'.name == th.name
      && s'.rooms[th.room.value].name == s.rooms[th.room.value].name
      && s'.rooms[th.room.value].log == s.rooms[th.room.value].log
      && Pending(s', th.room.value, u) == Pending(s, th.room.value, u)
    ensures HeardOk(s', u)
  {
  }

  /** A receiver in no room has got nothing. */
  lemma NothingHeard(s: State, s': State, u: nat)
    requires HeardOk(s, u) && InRange(s', u)
    requires var th, th' := s.threads[u], s'.threads[u];
      && th'.receiver == th.receiver
      && (th.receiver ==> (!Joined(th) || th.room.None?) && (!Joined(th') || th'.room.None?))
      && (th.receiver ==> th'.sent == th.sent && s'.boxes[u].queue == s.boxes[u].queue)
    ensures HeardOk(s', u)
  {
  }

  lemma QuietHeard(s: State, t: nat, s': State, v: nat, u: nat)
    requires Inv(s) && Discreet(s, t, s') && Quiet(s, t, s', v) && InRange(s', u) && u < |s.threads| && u != v
    ensures HeardOk(s', u)
  {
    assert HeardOk(s, u);
    assert u in Left(s'.threads[t].pc) - {v} <==> u in Left(s.threads[t].pc) - {v};
    var th := s.threads[u];
    if th.receiver && Joined(th) && th.room.Some? {
      SamePending(s, t, s', th.room.value, u);
      assert RoomChange(s.rooms[th.room.value], t, s'.rooms[th.room.value]);
      HeardStays(s, s', u);
    } else {
      assert ThreadOk(s, u);
      NothingHeard(s, s', u);
    }
  }

  /** A thread that has heard and kept the same, and whose queue is the same. */
  lemma SameHeard(s: State, t: nat, s': State)
    requires Inv(s) && Discreet(s, t, s') && Quiet(s, t, s', t) && InRange(s', t)
    requires SameEars(s.threads[t], s'.threads[t]) && s'.boxes[t].queue == s.boxes[t].queue
    requires s.threads[t].receiver ==> Left(s'.threads[t].pc) == Left(s.threads[t].pc) == {}
    ensures HeardOk(s', t)
  {
    assert HeardOk(s, t);
    assert ThreadOk(s, t);
    var th := s.threads[t];
    if th.receiver && Joined(th) && th.room.Some? {
      SamePending(s, t, s', th.room.value, t);
      assert RoomChange(s.rooms[th.room.value], t, s'.rooms[th.room.value]);
      HeardStays(s, s', t);
    } else {
      NothingHeard(s, s', t);
    }
  }

  /** What is left to show of a step that touches at most room `room` and queue `box`. */
  lemma Assemble(s: State, t: nat, s': State, room: Option<nat>, box: Option<nat>)
    requires Inv(s) && Discreet(s, t, s')
    requires ThreadOk(s', t) && ServerOk(s')
    requires forall u :: 0 <= u < |s.threads| ==> HeardOk(s', u)
    requires room.Some? ==> room.value < |s.rooms| && RoomOk(s', room.value)
    requires box.Some? ==> box.value < |s.boxes| && BoxOk(s', box.value)
    requires forall r :: 0 <= r < |s.rooms| && room != Some(r) ==> s'.rooms[r] == s.rooms[r]
    requires forall r :: |s.rooms| <= r < |s'.rooms| ==> RoomOk(s', r)
    requires forall u :: 0 <= u < |s.boxes| && box != Some(u) ==> s'.boxes[u] == s.boxes[u]
    requires RoomsFit(s.threads[t], s'.threads[t], room)
    requires BoxesFit(t, s.threads[t].pc, s'.threads[t].pc, box)
    ensures Inv(s')
  {
    forall x | 0 <= x < |s'.threads|
      ensures ThreadOk(s', x)
    {
      if x != t {
        OtherThreads(s, t, s', x);
      }
    }
    forall r | 0 <= r < |s'.rooms|
      ensures RoomOk(s', r)
    {
      if r < |s.rooms| && room != Some(r) {
        assert RoomOk(s, r);
        OtherRooms(s, t, s', r);
      }
    }
    forall u | 0 <= u < |s'.boxes|
      ensures BoxOk(s', u)
    {
      if box != Some(u) {
        assert BoxOk(s, u);
        OtherBoxes(s, t, s', u);
      }
    }
  }

  /** The same for a step that only `v` can hear. */
  lemma StepKeeps(s: State, t: nat, s': State, room: Option<nat>, box: Option<nat>, v: nat)
    requires Inv(s) && Discreet(s, t, s') && Quiet(s, t, s', v)
    requires ThreadOk(s', t) && ServerOk(s') && v < |s.threads| && HeardOk(s', v)
    requires room.Some? ==> room.value < |s.rooms| && RoomOk(s', room.value)
    requires box.Some? ==> box.value < |s.boxes| && BoxOk(s', box.value)
    requires forall r :: 0 <= r < |s.rooms| && room != Some(r) ==> s'.rooms[r] == s.rooms[r]
    requires forall r :: |s.rooms| <= r < |s'.rooms| ==> RoomOk(s', r)
    requires forall u :: 0 <= u < |s.boxes| && box != Some(u) ==> s'.boxes[u] == s.boxes[u]
    requires RoomsFit(s.threads[t], s'.threads[t], room)
    requires BoxesFit(t, s.threads[t].pc, s'.threads[t].pc, box)
    ensures Inv(s')
  {
    forall x | 0 <= x < |s.threads|
      ensures HeardOk(s', x)
    {
      if x != v {
        if x != t {
          OtherThreads(s, t, s', x);
        }
        QuietHeard(s, t, s', v, x);
      }
    }
    Assemble(s, t, s', room, box);
  }

  /** The same for a step that nobody can hear. */
  lemma QuietStep(s: State, t: nat, s': State, room: Option<nat>, box: Option<nat>)
    requires Inv(s) && Discreet(s, t, s') && Quiet(s, t, s', t)
    requires SameEars(s.threads[t], s'.threads[t]) && Left(s'.threads[t].pc) == Left(s.threads[t].pc)
    requires forall u :: 0 <= u < |s.boxes| ==> s'.boxes[u].queue == s.boxes[u].queue
    requires ThreadOk(s', t) && ServerOk(s')
    requires room.Some? ==> room.value < |s.rooms| && RoomOk(s', room.value)
    requires box.Some? ==> box.value < |s.boxes| && BoxOk(s', box.value)
    requires forall r :: 0 <= r < |s.rooms| && room != Some(r) ==> s'.rooms[r] == s.rooms[r]
    requires forall r :: |s.rooms| <= r < |s'.rooms| ==> RoomOk(s', r)
    requires forall u :: 0 <= u < |s.boxes| && box != Some(u) ==> s'.boxes[u] == s.boxes[u]
    requires RoomsFit(s.threads[t], s'.threads[t], room)
    requires BoxesFit(t, s.threads[t].pc, s'.threads[t].pc, box)
    ensures Inv(s')
  {
    ReceiverLeft(s', t);
    SameHeard(s, t, s');
    StepKeeps(s, t, s', room, box, t);
  }

  lemma ReceiverLeft(s: State, t: nat)
    requires ThreadOk(s, t)
    ensures s.threads[t].receiver ==> Left(s.threads[t].pc) == {}
  {
  }

  /** `t` touches no room but its own, and keeps what it has in the rooms it does not touch. */
  ghost predicate RoomsFit(th: Thread, th': Thread, room: Option<nat>) {
    && (room.Some? ==> room == th.room)
    && (room.None? && HoldsRoom(th.pc) ==> HoldsRoom(th'.pc) && th'.room == th.room)
    && (room.None? && th.room.Some? && !Away(th) ==> th'.room == th.room && !Away(th'))
  }

  ghost predicate BoxesFit(t: nat, pc: Pc, pc': Pc, box: Option<nat>) {
    && (box != Some(t) ==> HasToken(pc') == HasToken(pc))
    && (BoxHeld(t, pc).Some? && BoxHeld(t, pc) != box ==> BoxHeld(t, pc') == BoxHeld(t, pc) && Unposted(pc') == Unposted(pc))
  }

  // ----- steps that only move the program counter

  ghost predicate SameHolds(t: nat, th: Thread, pc: Pc) {
    && HoldsServer(pc) == HoldsServer(th.pc) && HoldsRoom(pc) == HoldsRoom(th.pc)
    && BoxHeld(t, pc) == BoxHeld(t, th.pc) && HasToken(pc) == HasToken(th.pc) && Unposted(pc) == Unposted(th.pc)
  }

  lemma GotoKeeps(s: State, t: nat, pc: Pc)
    requires Inv(s) && t < |s.threads| && SameHolds(t, s.threads[t], pc)
    requires var th, th' := s.threads[t], s.threads[t].(pc := pc);
      && OwnProgram(th') && (NeedsRoom(pc) ==> th.room.Some?)
      && Left(pc) == Left(th.pc) && InHand(pc) == InHand(th.pc) && Joined(th') == Joined(th)
      && (Away(th') ==> Away(th) || th.room.None?)
      && !pc.Posted? && (pc.Finding? ==> pc.phase == Want)
    requires Casting(pc) ==> Casting(s.threads[t].pc) && pc.text == s.threads[t].pc.text
    requires pc.Pushing? ==> pc.to < |s.threads| && pc.to in pc.left && s.threads[pc.to].name != s.threads[t].name && pc.phase == Want
    ensures Inv(Goto(s, t, pc))
  {
    assert ThreadOk(s, t);
    QuietStep(s, t, Goto(s, t, pc), None, None);
  }

  // ----- locks

  lemma TakeRoomKeeps(s: State, t: nat, pc: Pc, s': State)
    requires Inv(s) && t < |s.threads| && InRange(s, t) && s.threads[t].room.Some?
    requires TakeRoom(s, t, pc, s')
    requires var th, th' := s.threads[t], s.threads[t].(pc := pc);
      && !HoldsRoom(th.pc) && HoldsRoom(pc) && !Casting(pc) && !Casting(th.pc) && OwnProgram(th')
      && !HoldsServer(th.pc) && !pc.Finding? && BoxHeld(t, th.pc) == None == BoxHeld(t, pc)
      && HasToken(th.pc) == HasToken(pc) && InHand(th.pc) == InHand(pc)
      && (Away(th') ==> Away(th)) && (th.receiver ==> Away(th') == Away(th))
    ensures Inv(s')
  {
    assert ThreadOk(s, t);
    assert RoomOk(s, s.threads[t].room.value);
    QuietStep(s, t, s', s.threads[t].room, None);
  }

  lemma DropRoomKeeps(s: State, t: nat, pc: Pc, s': State)
    requires Inv(s) && t < |s.threads| && InRange(s, t) && s.threads[t].room.Some?
    requires DropRoom(s, t, pc, s')
    requires var th, th' := s.threads[t], s.threads[t].(pc := pc);
      && HoldsRoom(th.pc) && !HoldsRoom(pc) && Left(th.pc) == {} && !Casting(pc) && OwnProgram(th')
      && !HoldsServer(pc) && BoxHeld(t, th.pc) == None == BoxHeld(t, pc)
      && HasToken(th.pc) == HasToken(pc) && InHand(th.pc) == InHand(pc)
      && (Away(th') ==> Away(th)) && (th.receiver ==> Away(th') == Away(th))
    ensures Inv(s')
  {
    assert ThreadOk(s, t);
    assert RoomOk(s, s.threads[t].room.value);
    QuietStep(s, t, s', s.threads[t].room, None);
  }

  lemma TakeBoxKeeps(s: State, t: nat, u: nat, pc: Pc, s': State)
    requires Inv(s) && t < |s.threads| && u < |s.boxes| && TakeBox(s, t, u, pc, s')
    requires var th, th' := s.threads[t], s.threads[t].(pc := pc);
      && BoxHeld(t, th.pc) == None && BoxHeld(t, pc) == Some(u) && !Unposted(pc) && OwnProgram(th')
      && HoldsRoom(th.pc) == HoldsRoom(pc) && !HoldsServer(th.pc) && !HoldsServer(pc)
      && (NeedsRoom(pc) ==> NeedsRoom(th.pc)) && Left(pc) == Left(th.pc) && Casting(pc) == Casting(th.pc)
      && (Casting(pc) ==> th.pc.Pushing? && pc.Pushing? && th.pc.phase != Finished && pc == th.pc.(phase := pc.phase))
      && HasToken(th.pc) == HasToken(pc) && InHand(th.pc) == InHand(pc)
      && (Away(th') ==> Away(th)) && (th.receiver ==> Away(th') == Away(th))
    ensures Inv(s')
  {
    assert ThreadOk(s, t);
    assert BoxOk(s, u);
    QuietStep(s, t, s', None, Some(u));
  }

  lemma DropBoxKeeps(s: State, t: nat, u: nat, pc: Pc, s': State)
    requires Inv(s) && t < |s.threads| && u < |s.boxes| && DropBox(s, t, u, pc, s')
    requires var th, th' := s.threads[t], s.threads[t].(pc := pc);
      && BoxHeld(t, th.pc) == Some(u) && BoxHeld(t, pc) == None && !Unposted(th.pc) && OwnProgram(th')
      && HoldsRoom(th.pc) == HoldsRoom(pc) && !HoldsServer(th.pc) && !HoldsServer(pc)
      && (NeedsRoom(pc) ==> NeedsRoom(th.pc)) && Left(pc) == Left(th.pc) && Casting(pc) == Casting(th.pc)
      && (Casting(pc) ==> pc.Cast? && pc.text == th.pc.text)
      && HasToken(th.pc) == HasToken(pc) && InHand(th.pc) == InHand(pc)
      && (Away(th') ==> Away(th)) && (th.receiver ==> Away(th') == Away(th))
    ensures Inv(s')
  {
    assert ThreadOk(s, t);
    assert BoxOk(s, u);
    QuietStep(s, t, s', None, Some(u));
  }

  // ----- finding, leaving and joining rooms

  lemma FindKeeps(s: State, t: nat, s': State)
    requires Inv(s) && t < |s.threads| && InRange(s, t) && s.threads[t].pc.Finding? && FindStep(s, t, s')
    ensures Inv(s')
  {
    assert ThreadOk(s, t);
    var pc := s.threads[t].pc;
    if pc.phase == Held && pc.name !in s.names {
      CreateKeeps(s, t, s');
    } else if pc.phase == Finished {
      FoundKeeps(s, t, s');
    } else {
      LookKeeps(s, t, s');
    }
  }

  lemma LookKeeps(s: State, t: nat, s': State)
    requires Inv(s) && t < |s.threads| && InRange(s, t) && s.threads[t].pc.Finding? && FindStep(s, t, s')
    requires s.threads[t].pc.phase == Want || (s.threads[t].pc.phase == Held && s.threads[t].pc.name in s.names)
    ensures Inv(s')
  {
    LookOk(s, t, s');
    QuietStep(s, t, s', None, None);
  }

  lemma LookOk(s: State, t: nat, s': State)
    requires Inv(s) && t < |s.threads| && InRange(s, t) && s.threads[t].pc.Finding? && FindStep(s, t, s')
    requires s.threads[t].pc.phase == Want || (s.threads[t].pc.phase == Held && s.threads[t].pc.name in s.names)
    ensures ThreadOk(s, t) && Discreet(s, t, s') && ThreadOk(s', t) && ServerOk(s') && s'.rooms == s.rooms && s'.boxes == s.boxes
  {
    assert ThreadOk(s, t);
    assert ThreadOk(s', t);
  }

  lemma CreateKeeps(s: State, t: nat, s': State)
    requires Inv(s) && t < |s.threads| && InRange(s, t) && s.threads[t].pc.Finding? && FindStep(s, t, s')
    requires s.threads[t].pc.phase == Held && s.threads[t].pc.name !in s.names
    ensures Inv(s')
  {
    CreateOk(s, t, s');
    assert RoomOk(s', |s.rooms|);
    QuietStep(s, t, s', None, None);
  }

  lemma CreateOk(s: State, t: nat, s': State)
    requires Inv(s) && t < |s.threads| && InRange(s, t) && s.threads[t].pc.Finding? && FindStep(s, t, s')
    requires s.threads[t].pc.phase == Held && s.threads[t].pc.name !in s.names
    ensures ThreadOk(s, t) && Discreet(s, t, s') && ThreadOk(s', t) && ServerOk(s') && s'.boxes == s.boxes
    ensures |s'.rooms| == |s.rooms| + 1 && forall r :: 0 <= r < |s.rooms| ==> s'.rooms[r] == s.rooms[r]
  {
    assert ThreadOk(s, t);
    assert forall n :: n in s.names ==> s'.rooms[s.names[n]] == s.rooms[s.names[n]];
    assert ServerOk(s');
  }

  lemma FoundKeeps(s: State, t: nat, s': State)
    requires Inv(s) && t < |s.threads| && InRange(s, t) && s.threads[t].pc.Finding? && FindStep(s, t, s')
    requires s.threads[t].pc.phase == Finished
    ensures Inv(s')
  {
    assert ThreadOk(s, t);
    assert ThreadOk(s', t);
    QuietStep(s, t, s', None, None);
  }

  lemma RemoveKeeps(s: State, t: nat, s': State)
    requires Inv(s) && t < |s.threads| && InRange(s, t) && s.threads[t].pc.Removing? && RemoveStep(s, t, s')
    ensures Inv(s')
  {
    assert ThreadOk(s, t);
    var next := s.threads[t].pc.next;
    match s.threads[t].pc.phase
    case Want => TakeRoomKeeps(s, t, Removing(Held, next), s');
    case Held => EraseKeeps(s, t, s');
    case Finished => DropRoomKeeps(s, t, if next.Some? then Finding(Want, next.value) else Start, s');
  }

  lemma EraseKeeps(s: State, t: nat, s': State)
    requires Inv(s) && t < |s.threads| && InRange(s, t) && s.threads[t].pc.Removing? && RemoveStep(s, t, s')
    requires s.threads[t].pc.phase == Held
    ensures Inv(s')
  {
    assert ThreadOk(s, t);
    assert RoomOk(s, s.threads[t].room.value);
    assert ThreadOk(s', t);
    QuietStep(s, t, s', s.threads[t].room, None);
  }

  lemma AddKeeps(s: State, t: nat, s': State)
    requires Inv(s) && t < |s.threads| && InRange(s, t) && s.threads[t].pc.Adding? && AddStep(s, t, s')
    ensures Inv(s')
  {
    assert ThreadOk(s, t);
    match s.threads[t].pc.phase
    case Want => TakeRoomKeeps(s, t, Adding(Held), s');
    case Held => JoinKeeps(s, t, s');
    case Finished => DropRoomKeeps(s, t, if s.threads[t].receiver then Waiting else Start, s');
  }

  lemma JoinKeeps(s: State, t: nat, s': State)
    requires Inv(s) && t < |s.threads| && InRange(s, t) && s.threads[t].pc.Adding? && AddStep(s, t, s')
    requires s.threads[t].pc.phase == Held
    ensures Inv(s')
  {
    assert ThreadOk(s, t);
    var r := s.threads[t].room.value;
    assert RoomOk(s, r);
    assert ThreadOk(s', t);
    JoinHeard(s, t, s');
    StepKeeps(s, t, s', Some(r), None, t);
  }

  /** Who joins has heard nothing yet. */
  lemma JoinHeard(s: State, t: nat, s': State)
    requires Inv(s) && t < |s.threads| && InRange(s, t) && s.threads[t].pc.Adding? && AddStep(s, t, s')
    requires s.threads[t].pc.phase == Held
    ensures HeardOk(s', t)
  {
    assert ThreadOk(s, t);
    assert HeardOk(s, t);
  }

  // ----- broadcasting

  /** What was heard does not depend on later entries. */
  lemma {:induction false} HeardSame(room: string, a: seq<Entry>, b: seq<Entry>, from: nat, to: nat, name: string)
    requires from <= to <= |a| && a <= b
    ensures Heard(room, a, from, to, name) == Heard(room, b, from, to, name)
  {
    if from < to {
      HeardSame(room, a, b, from, to - 1, name);
    }
  }

  ghost predicate StartsCast(s: State, t: nat, s': State) {
    && InRange(s, t) && s.threads[t].pc.CastHeld? && Step(s, t, Go, s')
  }

  /** All members are still to hear the new entry of the log. */
  lemma StartHeardHere(s: State, t: nat, s': State, u: nat)
    requires Inv(s) && StartsCast(s, t, s') && u < |s.threads| && InRange(s', u)
    requires Joined(s.threads[u]) && s.threads[u].room == s.threads[t].room
    ensures HeardOk(s', u)
  {
    assert ThreadOk(s, t);
    assert ThreadOk(s, u);
    assert HeardOk(s, u);
    var r := s.threads[t].room.value;
    assert Pending(s, r, u) == 0;
    assert Pending(s', r, u) == 1;
    var log := s.rooms[r].log;
    HeardSame(s.rooms[r].name, log, s'.rooms[r].log, s.threads[u].joinedAt, |log|, s.threads[u].name);
  }

  lemma StartHeardElsewhere(s: State, t: nat, s': State, u: nat)
    requires Inv(s) && StartsCast(s, t, s') && Discreet(s, t, s') && u < |s.threads| && u != t && InRange(s', u)
    requires Joined(s.threads[u]) ==> s.threads[u].room != s.threads[t].room
    ensures HeardOk(s', u)
  {
    assert ThreadOk(s, t);
    assert ThreadOk(s, u);
    assert HeardOk(s, u);
    var th := s.threads[u];
    if Joined(th) {
      assert RoomOk(s, th.room.value);
      assert Pending(s', th.room.value, u) == Pending(s, th.room.value, u);
    }
  }

  /** The broadcast is in the log, and pending for every member. */
  lemma StartKeeps(s: State, t: nat, s': State)
    requires Inv(s) && StartsCast(s, t, s')
    ensures Inv(s')
    ensures var r := s.threads[t].room.value;
      && r < |s'.rooms| && s'.rooms[r].log == s.rooms[r].log + [Entry(s.threads[t].name, s.threads[t].pc.text)]
      && forall u :: u in s.rooms[r].members ==> Pending(s', r, u) == 1
  {
    assert ThreadOk(s, t);
    assert RoomOk(s, s.threads[t].room.value);
    assert Discreet(s, t, s');
    assert ThreadOk(s', t);
    forall u | 0 <= u < |s.threads|
      ensures HeardOk(s', u)
    {
      if u != t {
        OtherThreads(s, t, s', u);
        if Joined(s.threads[u]) && s.threads[u].room == s.threads[t].room {
          StartHeardHere(s, t, s', u);
        } else {
          StartHeardElsewhere(s, t, s', u);
        }
      }
    }
    Assemble(s, t, s', s.threads[t].room, None);
  }

  /** The member that `t` reaches now hears the last entry of the log. */
  lemma ReachedHeard(s: State, t: nat, s': State, u: nat)
    requires Inv(s) && InRange(s, t) && Casting(s.threads[t].pc) && u in Left(s.threads[t].pc) && u < |s.threads|
    requires InRange(s', u) && s'.rooms == s.rooms && |s'.threads| == |s.threads|
    requires u !in Left(s'.threads[t].pc) && s'.threads[u] == s.threads[u]
    requires s'.boxes[u].queue == s.boxes[u].queue + NewsFor(s, t, u)
    ensures HeardOk(s', u)
  {
    if s.threads[u].receiver {
      var room := Listens(s, t, s', u);
      HearLast(s, s', u, room, NewsFor(s, t, u));
    } else {
      assert HeardOk(s, u);
      NothingHeard(s, s', u);
    }
  }

  lemma HearLast(s: State, s': State, u: nat, room: Room, news: seq<Message>)
    requires InRange(s, u) && InRange(s', u) && s'.rooms == s.rooms && s'.threads[u] == s.threads[u]
    requires s.threads[u].receiver && Joined(s.threads[u]) && s.threads[u].room.Some?
    requires s'.boxes[u].queue == s.boxes[u].queue + news && Pending(s', s.threads[u].room.value, u) == 0
    requires room == s.rooms[s.threads[u].room.value] && room.log != []
    requires IsHeard(Got(s, u), room, s.threads[u].joinedAt, |room.log| - 1, s.threads[u].name)
    requires news == News(room.name, room.log[|room.log| - 1], s.threads[u].name)
    ensures HeardOk(s', u)
  {
    LastNews(room, s.threads[u].joinedAt, s.threads[u].name, Got(s, u), news);
    MoreHeard(s, s', u, news);
  }

  lemma MoreHeard(s: State, s': State, u: nat, news: seq<Message>)
    requires InRange(s, u) && InRange(s', u) && s'.rooms == s.rooms && s'.threads[u] == s.threads[u]
    requires s.threads[u].receiver && Joined(s.threads[u]) && s.threads[u].room.Some?
    requires s'.boxes[u].queue == s.boxes[u].queue + news && Pending(s', s.threads[u].room.value, u) == 0
    requires var th := s.threads[u];
      var room := s.rooms[th.room.value];
      IsHeard(Got(s, u) + news, room, th.joinedAt, |room.log|, th.name)
    ensures HeardOk(s', u)
  {
    var th := s.threads[u];
    Reached(th.sent, InHand(th.pc), s.boxes[u].queue, news, s'.boxes[u].queue);
    HeardUpToDate(s', u);
  }

  /** A receiver that the broadcast of `t` has still to reach is in its room, and lacks the last entry. */
  lemma Listens(s: State, t: nat, s': State, u: nat) returns (room: Room)
    requires Inv(s) && InRange(s, t) && Casting(s.threads[t].pc) && u in Left(s.threads[t].pc) && u < |s.threads|
    requires s'.rooms == s.rooms && |s'.threads| == |s.threads| && u !in Left(s'.threads[t].pc)
    requires s.threads[u].receiver
    ensures HeardOk(s, u) && Joined(s.threads[u]) && s.threads[u].room == s.threads[t].room
    ensures s.threads[t].room.Some? && s.threads[t].room.value < |s.rooms| && room == s.rooms[s.threads[t].room.value]
    ensures room.log != [] && room.log[|room.log| - 1] == Entry(s.threads[t].name, s.threads[t].pc.text)
    ensures IsHeard(Got(s, u), room, s.threads[u].joinedAt, |room.log| - 1, s.threads[u].name)
    ensures Pending(s', s.threads[t].room.value, u) == 0
  {
    assert ThreadOk(s, t);
    assert ThreadOk(s, u);
    assert HeardOk(s, u);
    room := s.rooms[s.threads[t].room.value];
    assert RoomOk(s, s.threads[t].room.value);
    assert Pending(s, s.threads[t].room.value, u) == 1;
  }

  /** A receiver that has got all that its room has said. */
  lemma HeardUpToDate(s: State, u: nat)
    requires InRange(s, u) && s.threads[u].receiver && Joined(s.threads[u]) && s.threads[u].room.Some?
    requires Pending(s, s.threads[u].room.value, u) == 0
    requires var th := s.threads[u];
      var room := s.rooms[th.room.value];
      IsHeard(Got(s, u), room, th.joinedAt, |room.log|, th.name)
    ensures HeardOk(s, u)
  {
  }

  lemma LastNews(room: Room, from: nat, name: string, got: seq<Message>, news: seq<Message>)
    requires room.log != [] && IsHeard(got, room, from, |room.log| - 1, name)
    requires news == News(room.name, room.log[|room.log| - 1], name)
    ensures IsHeard(got + news, room, from, |room.log|, name)
  {
  }

  /** What the broadcast of `t` has for `u`. */
  ghost function NewsFor(s: State, t: nat, u: nat): seq<Message>
    requires InRange(s, t) && Casting(s.threads[t].pc) && u < |s.threads|
  {
    News(s.rooms[s.threads[t].room.value].name, Entry(s.threads[t].name, s.threads[t].pc.text), s.threads[u].name)
  }

  lemma Reached(sent: seq<Message>, hand: seq<Message>, queue: seq<Message>, more: seq<Message>, queue': seq<Message>)
    requires queue' == queue + more
    ensures sent + hand + queue' == sent + hand + queue + more
  {
  }

  lemma SkipKeeps(s: State, t: nat, u: nat, s': State)
    requires Inv(s) && InRange(s, t) && s.threads[t].pc.Cast? && CastStep(s, t, Pick(u), s')
    requires u in s.threads[t].pc.left && s.threads[u].name == s.threads[t].name
    ensures Inv(s')
  {
    assert ThreadOk(s, t);
    if u != t {
      OtherThreads(s, t, s', u);
      ReachedHeard(s, t, s', u);
    } else {
      assert HeardOk(s, t);
    }
    assert ThreadOk(s', t);
    StepKeeps(s, t, s', None, None, u);
  }

  lemma CastKeeps(s: State, t: nat, c: Choice, s': State)
    requires Inv(s) && InRange(s, t) && s.threads[t].pc.Cast? && CastStep(s, t, c, s')
    ensures Inv(s')
  {
    assert ThreadOk(s, t);
    var Cast(text, left) := s.threads[t].pc;
    if left == {} {
      DropRoomKeeps(s, t, Start, s');
    } else if s.threads[c.to].name == s.threads[t].name {
      SkipKeeps(s, t, c.to, s');
    } else {
      GotoKeeps(s, t, Pushing(text, left, c.to, Want));
    }
  }

  lemma PushKeeps(s: State, t: nat, s': State)
    requires Inv(s) && InRange(s, t) && s.threads[t].pc.Pushing? && PushStep(s, t, s')
    ensures Inv(s')
  {
    assert ThreadOk(s, t);
    var Pushing(text, left, to, phase) := s.threads[t].pc;
    match phase
    case Want => TakeBoxKeeps(s, t, to, Pushing(text, left, to, Held), s');
    case Held => EnqueueKeeps(s, t, s');
    case Finished => PostKeeps(s, t, s');
  }

  lemma EnqueueKeeps(s: State, t: nat, s': State)
    requires Inv(s) && InRange(s, t) && s.threads[t].pc.Pushing? && PushStep(s, t, s')
    requires s.threads[t].pc.phase == Held
    ensures Inv(s')
  {
    var to := s.threads[t].pc.to;
    EnqueueOk(s, t, s', to);
    EnqueueHeard(s, t, s', to);
    StepKeeps(s, t, s', None, Some(to), to);
  }

  lemma EnqueueOk(s: State, t: nat, s': State, to: nat)
    requires Inv(s) && InRange(s, t) && s.threads[t].pc.Pushing? && PushStep(s, t, s')
    requires s.threads[t].pc.phase == Held && to == s.threads[t].pc.to
    ensures ThreadOk(s, t) && Discreet(s, t, s') && ThreadOk(s', t) && BoxOk(s', to) && ServerOk(s') && to != t
  {
    assert ThreadOk(s, t);
    assert BoxOk(s, to);
    assert ThreadOk(s', t);
  }

  lemma EnqueueHeard(s: State, t: nat, s': State, to: nat)
    requires Inv(s) && InRange(s, t) && s.threads[t].pc.Pushing? && PushStep(s, t, s') && Discreet(s, t, s')
    requires s.threads[t].pc.phase == Held && to == s.threads[t].pc.to && to != t
    ensures HeardOk(s', to)
  {
    assert ThreadOk(s, t);
    OtherThreads(s, t, s', to);
    ReachedHeard(s, t, s', to);
  }

  lemma PostKeeps(s: State, t: nat, s': State)
    requires Inv(s) && InRange(s, t) && s.threads[t].pc.Pushing? && PushStep(s, t, s')
    requires s.threads[t].pc.phase == Finished
    ensures Inv(s')
  {
    assert ThreadOk(s, t);
    assert BoxOk(s, s.threads[t].pc.to);
    assert ThreadOk(s', t);
    QuietStep(s, t, s', None, Some(s.threads[t].pc.to));
  }

  // ----- receiving

  lemma TokenKeeps(s: State, t: nat, s': State)
    requires Inv(s) && InRange(s, t) && s.threads[t].pc.Waiting? && s.boxes[t].sem > 0
    requires s' == SetBox(Goto(s, t, Checking), t, s.boxes[t].(sem := s.boxes[t].sem - 1))
    ensures Inv(s')
  {
    assert ThreadOk(s, t);
    assert BoxOk(s, t);
    assert ThreadOk(s', t);
    QuietStep(s, t, s', None, Some(t));
  }

  lemma PopKeeps(s: State, t: nat, s': State)
    requires Inv(s) && InRange(s, t) && s.threads[t].pc.PopHeld? && DequeueStep(s, t, Go, s')
    ensures Inv(s')
  {
    assert ThreadOk(s, t);
    assert BoxOk(s, t);
    assert ThreadOk(s', t);
    TakeHeard(s, t, s');
    StepKeeps(s, t, s', None, Some(t), t);
  }

  lemma SendKeeps(s: State, t: nat, s': State)
    requires Inv(s) && InRange(s, t) && s.threads[t].pc.Sending? && DequeueStep(s, t, Go, s')
    ensures Inv(s')
  {
    assert ThreadOk(s, t);
    assert ThreadOk(s', t);
    TakeHeard(s, t, s');
    StepKeeps(s, t, s', None, None, t);
  }

  lemma PopGot(s: State, t: nat, s': State)
    requires InRange(s, t) && s.threads[t].pc.PopHeld? && DequeueStep(s, t, Go, s')
    ensures Got(s', t) == Got(s, t)
  {
    var queue := s.boxes[t].queue;
    assert queue == [queue[0]] + queue[1..];
  }

  lemma SendGot(s: State, t: nat, s': State)
    requires InRange(s, t) && s.threads[t].pc.Sending? && DequeueStep(s, t, Go, s')
    ensures Got(s', t) == Got(s, t)
  {
  }

  /** Moving a message on from the queue to the hand or from the hand to the client. */
  lemma TakeHeard(s: State, t: nat, s': State)
    requires Inv(s) && InRange(s, t) && InRange(s', t)
    requires (s.threads[t].pc.PopHeld? || s.threads[t].pc.Sending?) && DequeueStep(s, t, Go, s')
    ensures HeardOk(s', t)
  {
    assert ThreadOk(s, t);
    assert HeardOk(s, t);
    if s.threads[t].pc.PopHeld? {
      PopGot(s, t, s');
    } else {
      SendGot(s, t, s');
    }
    SameGot(s, t, s');
  }

  lemma SameGot(s: State, t: nat, s': State)
    requires Inv(s) && InRange(s, t) && InRange(s', t) && HeardOk(s, t) && Discreet(s, t, s') && Got(s', t) == Got(s, t)
    requires s'.rooms == s.rooms && s.threads[t].room.Some? && s'.threads[t].room == s.threads[t].room
    requires Joined(s.threads[t]) && Joined(s'.threads[t]) && s'.threads[t].joinedAt == s.threads[t].joinedAt
    requires Left(s.threads[t].pc) == Left(s'.threads[t].pc) == {}
    ensures HeardOk(s', t)
  {
    SamePending(s, t, s', s.threads[t].room.value, t);
    HeardStays(s, s', t);
  }

  lemma DequeueKeeps(s: State, t: nat, c: Choice, s': State)
    requires Inv(s) && InRange(s, t) && DequeueStep(s, t, c, s')
    ensures Inv(s')
  {
    assert ThreadOk(s, t);
    assert BoxOk(s, t);
    match s.threads[t].pc
    case Waiting =>
      if s' != s {
        TokenKeeps(s, t, s');
      }
    case Checking => GotoKeeps(s, t, PopWant);
    case PopWant => TakeBoxKeeps(s, t, t, PopHeld, s');
    case PopHeld => PopKeeps(s, t, s');
    case Popped(msg) => DropBoxKeeps(s, t, t, Sending(msg), s');
    case Sending(_) => SendKeeps(s, t, s');
    case _ =>
  }

  lemma RequestKeeps(s: State, t: nat, c: Choice, s': State)
    requires Inv(s) && InRange(s, t) && s.threads[t].pc.Start? && Request(s, t, c, s')
    ensures Inv(s')
  {
    assert ThreadOk(s, t);
    GotoKeeps(s, t, s'.threads[t].pc);
  }

  /** Every step of every thread keeps the invariant. */
  lemma EveryStepKeeps(s: State, t: nat, c: Choice, s': State)
    requires Inv(s) && InRange(s, t) && Step(s, t, c, s')
    ensures Inv(s')
  {
    assert ThreadOk(s, t);
    match s.threads[t].pc
    case Start => RequestKeeps(s, t, c, s');
    case Removing(_, _) => RemoveKeeps(s, t, s');
    case Finding(_, _) => FindKeeps(s, t, s');
    case Adding(_) => AddKeeps(s, t, s');
    case CastWant(text) => TakeRoomKeeps(s, t, CastHeld(text), s');
    case CastHeld(_) => StartKeeps(s, t, s');
    case Cast(_, _) => CastKeeps(s, t, c, s');
    case Pushing(_, _, _, _) => PushKeeps(s, t, s');
    case Posted(text, left, to) => DropBoxKeeps(s, t, to, Cast(text, left), s');
    case _ => DequeueKeeps(s, t, c, s');
  }
}
