/** The chat server cannot deadlock: locks are taken room first, then queue, and are always given up. */
module ChatProgress {
  import opened Messages
  import opened Options
  import opened ChatServer
  import opened ChatSteps
  import opened ChatRuns

  /** `t` can do something other than let its timed wait run out. */
  ghost predicate CanStep(s: State, t: nat) {
    InRange(s, t) && exists c, s' :: Step(s, t, c, s') && s' != s
  }

  /** The lock that `t` is waiting for, if it is at one. */
  ghost function Wanted(s: State, t: nat): Option<nat>
    requires InRange(s, t)
  {
    var th := s.threads[t];
    match th.pc
    case Removing(Want, _) => s.rooms[th.room.value].lock
    case Finding(Want, _) => s.lock
    case Adding(Want) => s.rooms[th.room.value].lock
    case CastWant(_) => s.rooms[th.room.value].lock
    case Pushing(_, _, to, Want) => s.boxes[to].lock
    case PopWant => s.boxes[t].lock
    case _ => None
  }

  /** Nothing to do: the client is gone, or a receiver's queue has nothing to take. */
  ghost predicate Idle(s: State, t: nat)
    requires InRange(s, t)
  {
    s.threads[t].pc.Stopped? || (s.threads[t].pc.Waiting? && s.boxes[t].sem == 0)
  }

  /** A thread that wants no held lock. */
  ghost predicate Free(s: State, t: nat) {
    Inv(s) && t < |s.threads| && ThreadOk(s, t) && BoxOk(s, t) && Wanted(s, t) == None
  }

  lemma TakeRoomFree(s: State, t: nat, pc: Pc) returns (s': State)
    requires InRange(s, t) && s.threads[t].room.Some? && s.rooms[s.threads[t].room.value].lock == None
    requires pc != s.threads[t].pc
    ensures TakeRoom(s, t, pc, s') && s' != s
  {
    var r := s.threads[t].room.value;
    s' := SetRoom(Goto(s, t, pc), r, s.rooms[r].(lock := Some(t)));
    assert s'.threads[t].pc == pc;
  }

  lemma DropRoomFree(s: State, t: nat, pc: Pc) returns (s': State)
    requires InRange(s, t) && s.threads[t].room.Some? && pc != s.threads[t].pc
    ensures DropRoom(s, t, pc, s') && s' != s
  {
    var r := s.threads[t].room.value;
    s' := SetRoom(Goto(s, t, pc), r, s.rooms[r].(lock := None));
    assert s'.threads[t].pc == pc;
  }

  lemma RemoveFree(s: State, t: nat) returns (s': State)
    requires Free(s, t) && s.threads[t].pc.Removing?
    ensures RemoveStep(s, t, s') && s' != s
  {
    var r, next := s.threads[t].room.value, s.threads[t].pc.next;
    match s.threads[t].pc.phase
    case Want => s' := TakeRoomFree(s, t, Removing(Held, next));
    case Held =>
      s' := SetRoom(Goto(s, t, Removing(Finished, next)), r, s.rooms[r].(members := s.rooms[r].members - {t}));
      assert s'.threads[t].pc.phase == Finished;
    case Finished => s' := DropRoomFree(s, t, if next.Some? then Finding(Want, next.value) else Start);
  }

  lemma FindFree(s: State, t: nat) returns (s': State)
    requires Free(s, t) && s.threads[t].pc.Finding?
    ensures FindStep(s, t, s') && s' != s
  {
    var name := s.threads[t].pc.name;
    match s.threads[t].pc.phase
    case Want =>
      s' := Goto(s, t, Finding(Held, name)).(lock := Some(t));
      assert s'.threads[t].pc.phase == Held;
    case Held =>
      var u := Goto(s, t, Finding(Finished, name));
      s' := if name in s.names then u
            else u.(rooms := s.rooms + [Room(name, {}, None, [])], names := s.names[name := |s.rooms|]);
      assert s'.threads[t].pc.phase == Finished;
    case Finished =>
      s' := s.(threads := s.threads[t := s.threads[t].(pc := Adding(Want), room := Some(s.names[name]))], lock := None);
      assert s'.threads[t].pc.Adding?;
  }

  lemma AddFree(s: State, t: nat) returns (s': State)
    requires Free(s, t) && s.threads[t].pc.Adding?
    ensures AddStep(s, t, s') && s' != s
  {
    var r := s.threads[t].room.value;
    match s.threads[t].pc.phase
    case Want => s' := TakeRoomFree(s, t, Adding(Held));
    case Held =>
      s' := s.(threads := s.threads[t := s.threads[t].(pc := Adding(Finished), joinedAt := |s.rooms[r].log|)],
               rooms := s.rooms[r := s.rooms[r].(members := s.rooms[r].members + {t})]);
      assert s'.threads[t].pc.phase == Finished;
    case Finished => s' := DropRoomFree(s, t, if s.threads[t].receiver then Waiting else Start);
  }

  lemma CastFree(s: State, t: nat) returns (c: Choice, s': State)
    requires Free(s, t) && s.threads[t].pc.Cast?
    ensures CastStep(s, t, c, s') && s' != s
  {
    var Cast(text, left) := s.threads[t].pc;
    c := Go;
    if left == {} {
      s' := DropRoomFree(s, t, Start);
    } else {
      var to :| to in left;
      c := Pick(to);
      s' := Goto(s, t, if s.threads[to].name == s.threads[t].name then Cast(text, left - {to})
                       else Pushing(text, left, to, Want));
      assert s'.threads[t].pc != s.threads[t].pc;
    }
  }

  lemma PushFree(s: State, t: nat) returns (s': State)
    requires Free(s, t) && s.threads[t].pc.Pushing?
    ensures PushStep(s, t, s') && s' != s
  {
    var Pushing(text, left, to, phase) := s.threads[t].pc;
    var box := s.boxes[to];
    match phase
    case Want =>
      s' := SetBox(Goto(s, t, Pushing(text, left, to, Held)), to, box.(lock := Some(t)));
      assert s'.threads[t].pc.phase == Held;
    case Held =>
      s' := SetBox(Goto(s, t, Pushing(text, left - {to}, to, Finished)), to, box.(queue := box.queue + [PostFor(s, t)]));
      assert s'.threads[t].pc.phase == Finished;
    case Finished =>
      s' := SetBox(Goto(s, t, Posted(text, left, to)), to, box.(sem := box.sem + 1));
      assert s'.threads[t].pc.Posted?;
  }

  /** A receiver that has taken a token always finds its message. */
  lemma DequeueFree(s: State, t: nat) returns (s': State)
    requires Free(s, t) && s.threads[t].receiver && !Away(s.threads[t]) && !s.threads[t].pc.Adding? && !Idle(s, t)
    ensures DequeueStep(s, t, Go, s') && s' != s
  {
    var th, box := s.threads[t], s.boxes[t];
    match th.pc
    case Waiting =>
      s' := SetBox(Goto(s, t, Checking), t, box.(sem := box.sem - 1));
      assert s'.threads[t].pc.Checking?;
    case Checking =>
      s' := Goto(s, t, PopWant);
      assert s'.threads[t].pc.PopWant?;
    case PopWant =>
      s' := SetBox(Goto(s, t, PopHeld), t, box.(lock := Some(t)));
      assert s'.threads[t].pc.PopHeld?;
    case PopHeld =>
      s' := SetBox(Goto(s, t, Popped(box.queue[0])), t, box.(queue := box.queue[1..]));
      assert s'.threads[t].pc.Popped?;
    case Popped(msg) =>
      s' := SetBox(Goto(s, t, Sending(msg)), t, box.(lock := None));
      assert s'.threads[t].pc.Sending?;
    case Sending(msg) =>
      s' := s.(threads := s.threads[t := th.(pc := Waiting, sent := th.sent + [msg])]);
      assert s'.threads[t].pc.Waiting?;
  }

  /** Whoever is not idle and wants no held lock can step. */
  lemma FreeSteps(s: State, t: nat)
    requires Free(s, t) && !Idle(s, t)
    ensures CanStep(s, t)
  {
    var c, s' := Go, s;
    match s.threads[t].pc {
      case Start =>
        c, s' := Quit, Goto(s, t, Stopped);
        assert s'.threads[t].pc.Stopped?;
      case Removing(_, _) => s' := RemoveFree(s, t);
      case Finding(_, _) => s' := FindFree(s, t);
      case Adding(_) => s' := AddFree(s, t);
      case CastWant(text) => s' := TakeRoomFree(s, t, CastHeld(text));
      case CastHeld(text) =>
        var r := s.threads[t].room.value;
        var room := s.rooms[r];
        s' := SetRoom(Goto(s, t, Cast(text, room.members)), r, room.(log := room.log + [Entry(s.threads[t].name, text)]));
        assert s'.threads[t].pc.Cast?;
      case Cast(_, _) => c, s' := CastFree(s, t);
      case Pushing(_, _, _, _) => s' := PushFree(s, t);
      case Posted(text, left, to) =>
        s' := SetBox(Goto(s, t, Cast(text, left)), to, s.boxes[to].(lock := None));
        assert s'.threads[t].pc.Cast?;
      case _ => s' := DequeueFree(s, t);
    }
    assert Step(s, t, c, s');
  }

  /** A lock that says it is held by `t`. */
  ghost predicate Names(s: State, t: nat) {
    || s.lock == Some(t)
    || (exists r :: 0 <= r < |s.rooms| && s.rooms[r].lock == Some(t))
    || (exists u :: 0 <= u < |s.boxes| && s.boxes[u].lock == Some(t))
  }

  /**
   * By what the locks say: the server's lock is held alone, and its holder and a queue's want no
   * lock; a room's holder wants at most a queue's, inside a broadcast; and nobody holds a lock in
   * the timed wait, between requests or after the end.
   */
  lemma LockOrder(run: seq<State>, who: seq<nat>, how: seq<Choice>, i: nat, t: nat)
    requires IsRun(run, who, how) && i < |run| && t < |run[i].threads|
    ensures InRange(run[i], t)
    ensures var s := run[i];
      && (s.lock == Some(t) ==> Wanted(s, t) == None && forall r :: 0 <= r < |s.rooms| ==> s.rooms[r].lock != Some(t))
      && (s.lock == Some(t) ==> forall u :: 0 <= u < |s.boxes| ==> s.boxes[u].lock != Some(t))
      && (forall u :: 0 <= u < |s.boxes| && s.boxes[u].lock == Some(t) ==> Wanted(s, t) == None)
      && (forall r :: 0 <= r < |s.rooms| && s.rooms[r].lock == Some(t) && Wanted(s, t).Some? ==>
            && s.threads[t].pc.Pushing? && s.threads[t].pc.to < |s.boxes|
            && Wanted(s, t) == s.boxes[s.threads[t].pc.to].lock)
      && (s.threads[t].pc.Waiting? || s.threads[t].pc.Start? || s.threads[t].pc.Stopped? ==> !Names(s, t))
  {
    var s := run[i];
    RunInv(run, who, how, i);
    assert ThreadOk(s, t);
    forall r | 0 <= r < |s.rooms| && s.rooms[r].lock == Some(t)
      ensures HoldsRoom(s.threads[t].pc) && s.threads[t].room == Some(r)
    {
      assert RoomOk(s, r);
    }
    forall u | 0 <= u < |s.boxes| && s.boxes[u].lock == Some(t)
      ensures BoxHeld(t, s.threads[t].pc) == Some(u)
    {
      assert BoxOk(s, u);
    }
  }

  /** No thread holds two rooms' locks, or two queues'. */
  lemma OneOfEach(run: seq<State>, who: seq<nat>, how: seq<Choice>, i: nat, t: nat, a: nat, b: nat)
    requires IsRun(run, who, how) && i < |run| && t < |run[i].threads|
    ensures a < |run[i].rooms| && b < |run[i].rooms| && run[i].rooms[a].lock == Some(t) == run[i].rooms[b].lock ==> a == b
    ensures a < |run[i].boxes| && b < |run[i].boxes| && run[i].boxes[a].lock == Some(t) == run[i].boxes[b].lock ==> a == b
  {
    var s := run[i];
    RunInv(run, who, how, i);
    if a < |s.rooms| && b < |s.rooms| {
      assert RoomOk(s, a) && RoomOk(s, b);
    }
    if a < |s.boxes| && b < |s.boxes| {
      assert BoxOk(s, a) && BoxOk(s, b);
    }
  }

  /** The holder of a wanted lock is a thread inside that lock. */
  lemma HolderOf(s: State, t: nat)
    requires Inv(s) && InRange(s, t) && Wanted(s, t).Some?
    ensures var h := Wanted(s, t).value;
      && h < |s.threads| && InRange(s, h)
      && (HoldsServer(s.threads[h].pc) || HoldsRoom(s.threads[h].pc) || BoxHeld(h, s.threads[h].pc).Some?)
      && (HoldsRoom(s.threads[t].pc) ==> BoxHeld(h, s.threads[h].pc).Some?)
  {
    assert ThreadOk(s, t);
    var h := Wanted(s, t).value;
    var pc := s.threads[t].pc;
    if pc.Pushing? {
      assert BoxOk(s, pc.to);
    } else if pc.PopWant? {
      assert BoxOk(s, t);
    } else if !pc.Finding? {
      assert RoomOk(s, s.threads[t].room.value);
    }
    assert ThreadOk(s, h);
  }

  lemma HolderSteps(s: State, t: nat)
    requires Inv(s) && InRange(s, t) && Wanted(s, t) == None
    requires HoldsServer(s.threads[t].pc) || HoldsRoom(s.threads[t].pc) || BoxHeld(t, s.threads[t].pc).Some?
    ensures CanStep(s, t)
  {
    assert ThreadOk(s, t);
    assert BoxOk(s, t);
    FreeSteps(s, t);
  }

  /**
   * No deadlock: in every reachable state every thread is idle, can step, waits for a lock whose
   * holder can step, or waits for a room whose holder waits for a queue whose holder can step.
   */
  lemma NoDeadlock(run: seq<State>, who: seq<nat>, how: seq<Choice>, i: nat, t: nat)
    requires IsRun(run, who, how) && i < |run| && t < |run[i].threads|
    ensures var s := run[i];
      && InRange(s, t)
      && (Wanted(s, t) == None ==> Idle(s, t) || CanStep(s, t))
      && (Wanted(s, t).Some? ==>
            && var h := Wanted(s, t).value;
            && InRange(s, h)
            && (Wanted(s, h) == None ==> CanStep(s, h))
            && (Wanted(s, h).Some? ==> CanStep(s, Wanted(s, h).value)))
  {
    var s := run[i];
    RunInv(run, who, how, i);
    assert ThreadOk(s, t);
    assert BoxOk(s, t);
    if Wanted(s, t) == None {
      if !Idle(s, t) {
        FreeSteps(s, t);
      }
    } else {
      HolderOf(s, t);
      var h := Wanted(s, t).value;
      if Wanted(s, h) == None {
        HolderSteps(s, h);
      } else {
        HolderOf(s, h);
        HolderSteps(s, Wanted(s, h).value);
      }
    }
  }

  // ----- critical sections end

  /** An upper bound on the steps `t` still takes with the locks that it holds. */
  ghost function WorkLeft(s: State, t: nat): nat
    requires InRange(s, t)
  {
    match s.threads[t].pc
    case Removing(phase, _) => Rest(phase)
    case Finding(phase, _) => Rest(phase)
    case Adding(phase) => Rest(phase)
    case CastHeld(_) => 4 + 6 * |s.rooms[s.threads[t].room.value].members|
    case Cast(_, left) => 3 + 6 * |left|
    case Pushing(_, left, _, phase) => 6 * |left| + (if phase == Want then 2 else if phase == Held then 1 else 6)
    case Posted(_, left, _) => 5 + 6 * |left|
    case PopHeld => 2
    case Popped(_) => 1
    case _ => 0
  }

  function Rest(phase: Phase): nat {
    match phase
    case Want => 3
    case Held => 2
    case Finished => 1
  }

  ghost predicate Inside(t: nat, pc: Pc) {
    HoldsServer(pc) || HoldsRoom(pc) || BoxHeld(t, pc).Some?
  }

  /** Each step a thread takes with a lock brings it nearer to giving up all it holds. */
  lemma SectionsEnd(run: seq<State>, who: seq<nat>, how: seq<Choice>, i: nat)
    requires IsRun(run, who, how) && i < |who| && Moves(run, who, how, i)
    requires Inside(who[i], run[i].threads[who[i]].pc)
    ensures InRange(run[i], who[i]) && InRange(run[i + 1], who[i])
    ensures WorkLeft(run[i + 1], who[i]) < WorkLeft(run[i], who[i]) || !Inside(who[i], run[i + 1].threads[who[i]].pc)
  {
    RunInv(run, who, how, i);
    RunInv(run, who, how, i + 1);
    assert ThreadOk(run[i], who[i]);
    assert ThreadOk(run[i + 1], who[i]);
    SectionStep(run[i], who[i], how[i], run[i + 1]);
  }

  lemma SectionStep(s: State, t: nat, c: Choice, s': State)
    requires ThreadOk(s, t) && Step(s, t, c, s') && InRange(s', t) && Inside(t, s.threads[t].pc)
    ensures WorkLeft(s', t) < WorkLeft(s, t) || !Inside(t, s'.threads[t].pc)
  {
    var pc := s.threads[t].pc;
    if pc.Cast? {
      SectionCast(s, t, c, s');
    } else if pc.Pushing? {
      SectionPush(s, t, s');
    } else if pc.CastHeld? || pc.Posted? {
      SectionTurn(s, t, c, s');
    } else {
      SectionShort(s, t, c, s');
    }
  }

  lemma SectionCast(s: State, t: nat, c: Choice, s': State)
    requires ThreadOk(s, t) && s.threads[t].pc.Cast? && CastStep(s, t, c, s') && InRange(s', t)
    ensures WorkLeft(s', t) < WorkLeft(s, t) || !Inside(t, s'.threads[t].pc)
  {
    if s'.threads[t].pc.Cast? {
      assert Left(s.threads[t].pc) == Left(s'.threads[t].pc) + {c.to};
    }
  }

  lemma SectionPush(s: State, t: nat, s': State)
    requires ThreadOk(s, t) && s.threads[t].pc.Pushing? && PushStep(s, t, s') && InRange(s', t)
    ensures WorkLeft(s', t) < WorkLeft(s, t)
  {
    if s.threads[t].pc.phase == Held {
      assert Left(s.threads[t].pc) == Left(s'.threads[t].pc) + {s.threads[t].pc.to};
    }
  }

  lemma SectionTurn(s: State, t: nat, c: Choice, s': State)
    requires ThreadOk(s, t) && (s.threads[t].pc.CastHeld? || s.threads[t].pc.Posted?) && Step(s, t, c, s') && InRange(s', t)
    ensures WorkLeft(s', t) < WorkLeft(s, t)
  {
  }

  lemma SectionShort(s: State, t: nat, c: Choice, s': State)
    requires ThreadOk(s, t) && !Casting(s.threads[t].pc) && !s.threads[t].pc.CastHeld?
    requires Step(s, t, c, s') && InRange(s', t) && Inside(t, s.threads[t].pc)
    ensures WorkLeft(s', t) < WorkLeft(s, t) || !Inside(t, s'.threads[t].pc)
  {
  }
}
