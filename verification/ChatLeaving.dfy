/** Leaving a room does not stop a sender from broadcasting in it. */
module ChatLeaving {
  import opened Messages
  import opened Options
  import opened ChatServer
  import opened ChatSteps
  import opened ChatRuns
  import opened ChatProgress
  import opened ChatDelivery

  // ----- when a sender that broadcasts is in the room

  /** Whether the last join or leave that the client of `t` asked for was a join. */
  ghost predicate LastAskedIn(run: seq<State>, who: seq<nat>, how: seq<Choice>, i: nat, t: nat)
    requires i < |run| && i <= |who| == |how|
  {
    if i == 0 then false
    else AskedAfter(run[i - 1], who[i - 1], how[i - 1], t, LastAskedIn(run, who, how, i - 1, t))
  }

  predicate AskedAfter(s: State, x: nat, c: Choice, t: nat, before: bool) {
    if x != t || t >= |s.threads| || !s.threads[t].pc.Start? then before
    else if c.Join? then true
    else if c.Leave? then false
    else before
  }

  /** Membership lags behind the requests only while the thread is at work on them. */
  predicate Agrees(th: Thread, inRoom: bool, asked: bool) {
    match th.pc
    case Removing(phase, next) => asked == next.Some? && (phase == Finished ==> !inRoom)
    case Finding(_, _) => asked && !inRoom
    case Adding(phase) => asked && (inRoom <==> phase == Finished)
    case _ => !th.receiver ==> inRoom == asked
  }

  lemma StepAgrees(s: State, t: nat, c: Choice, s': State, asked: bool)
    requires Inv(s) && InRange(s, t) && Step(s, t, c, s') && Effect(s, t, s') && |s'.threads| == |s.threads|
    requires Agrees(s.threads[t], InItsRoom(s, t), asked)
    ensures Agrees(s'.threads[t], InItsRoom(s', t), AskedAfter(s, t, c, t, asked))
  {
    assert ThreadOk(s, t);
    OwnMembership(s, t, s');
    if s.threads[t].room.Some? {
      assert RoomOk(s, s.threads[t].room.value);
    }
    PcAgrees(s, t, c, s', InItsRoom(s, t), InItsRoom(s', t), asked);
  }

  lemma PcAgrees(s: State, t: nat, c: Choice, s': State, was: bool, is_: bool, asked: bool)
    requires ThreadOk(s, t) && Step(s, t, c, s') && |s'.threads| == |s.threads| && s'.threads[t].receiver == s.threads[t].receiver
    requires is_ <==> s.threads[t].pc == Adding(Held) || (was && !(s.threads[t].pc.Removing? && s.threads[t].pc.phase == Held))
    requires was ==> !Away(s.threads[t]) && s.threads[t].room.Some?
    requires Agrees(s.threads[t], was, asked)
    ensures Agrees(s'.threads[t], is_, AskedAfter(s, t, c, t, asked))
  {
  }

  lemma {:induction false} RunAgrees(run: seq<State>, who: seq<nat>, how: seq<Choice>, i: nat, t: nat)
    requires IsRun(run, who, how) && i < |run| && t < |run[i].threads|
    ensures Agrees(run[i].threads[t], InItsRoom(run[i], t), LastAskedIn(run, who, how, i, t))
  {
    if i > 0 {
      NextGrows(run, who, how, i - 1);
      RunAgrees(run, who, how, i - 1, t);
      NextInRun(run, who, how, i - 1, t, LastAskedIn(run, who, how, i - 1, t));
    }
  }

  lemma NextInRun(run: seq<State>, who: seq<nat>, how: seq<Choice>, i: nat, t: nat, asked: bool)
    requires IsRun(run, who, how) && i < |who| && t < |run[i].threads| && |run[i + 1].threads| == |run[i].threads|
    requires Agrees(run[i].threads[t], InItsRoom(run[i], t), asked)
    ensures Agrees(run[i + 1].threads[t], InItsRoom(run[i + 1], t), AskedAfter(run[i], who[i], how[i], t, asked))
  {
    RunEffect(run, who, how, i);
    assert Moves(run, who, how, i);
    NextAgrees(run[i], who[i], how[i], run[i + 1], t, asked);
  }

  lemma NextAgrees(s: State, x: nat, c: Choice, s': State, t: nat, asked: bool)
    requires Inv(s) && InRange(s, x) && Step(s, x, c, s') && Effect(s, x, s') && t < |s.threads|
    requires Agrees(s.threads[t], InItsRoom(s, t), asked)
    ensures Agrees(s'.threads[t], InItsRoom(s', t), AskedAfter(s, x, c, t, asked))
  {
    if x == t {
      StepAgrees(s, t, c, s', asked);
    } else {
      OtherMembership(s, x, s', t);
    }
  }

  /** A sender that broadcasts is in the room exactly when the last join or leave asked for was a join. */
  lemma CasterIsMemberIff(run: seq<State>, who: seq<nat>, how: seq<Choice>, i: nat, t: nat)
    requires IsRun(run, who, how) && i < |run| && t < |run[i].threads| && run[i].threads[t].pc.CastHeld?
    ensures InItsRoom(run[i], t) <==> LastAskedIn(run, who, how, i, t)
  {
    AllInRange(run, who, how, i, t);
    RunInv(run, who, how, i);
    assert ThreadOk(run[i], t);
    RunAgrees(run, who, how, i, t);
  }

  // ----- a broadcast after a leave, and who gets it

  datatype Names = Names(user: string, reader: string, room: string)

  /** A sender at rest and a receiver on its way into the first room. */
  function Early(n: Names, pc: Pc, in_: Option<nat>, made: bool, members: set<nat>, held: Option<nat>, lock: Option<nat>): State {
    State([Thread(n.user, false, None, Start, 0, []), Thread(n.reader, true, in_, pc, 0, [])],
          [Box([], 0, None), Box([], 0, None)],
          if made then [Room(n.room, members, held, [])] else [], if made then map[n.room := 0] else map[], lock)
  }

  /** The receiver waits in the room; the sender is at `pc`. */
  function Later(n: Names, pc: Pc, in_: Option<nat>, members: set<nat>, held: Option<nat>, lock: Option<nat>, log: seq<Entry>): State {
    State([Thread(n.user, false, in_, pc, 0, []), Thread(n.reader, true, Some(0), Waiting, 0, [])],
          [Box([], 0, None), Box([], 0, None)],
          [Room(n.room, members, held, log)], map[n.room := 0], lock)
  }

  lemma ReaderAsks(n: Names) returns (run: Run)
    ensures Reaches(run, Early(n, Finding(Held, n.room), None, false, {}, None, Some(1)))
  {
    var s0 := Early(n, Start, None, false, {}, None, None);
    var s1 := Early(n, Finding(Want, n.room), None, false, {}, None, None);
    run := Run([s0], [], []);
    run := Extend(run, s0, 1, Join(n.room), s1);
    run := Extend(run, s1, 1, Go, Early(n, Finding(Held, n.room), None, false, {}, None, Some(1)));
  }

  lemma ReaderFinds(n: Names) returns (run: Run)
    ensures Reaches(run, Early(n, Adding(Want), Some(0), true, {}, None, None))
  {
    run := ReaderAsks(n);
    var s2 := Early(n, Finding(Held, n.room), None, false, {}, None, Some(1));
    var s3 := Early(n, Finding(Finished, n.room), None, true, {}, None, Some(1));
    run := Extend(run, s2, 1, Go, s3);
    run := Extend(run, s3, 1, Go, Early(n, Adding(Want), Some(0), true, {}, None, None));
  }

  lemma ReaderWaits(n: Names) returns (run: Run)
    ensures Reaches(run, Later(n, Start, None, {1}, None, None, []))
  {
    run := ReaderFinds(n);
    var s4 := Early(n, Adding(Want), Some(0), true, {}, None, None);
    var s5 := Early(n, Adding(Held), Some(0), true, {}, Some(1), None);
    var s6 := Early(n, Adding(Finished), Some(0), true, {1}, Some(1), None);
    run := Extend(run, s4, 1, Go, s5);
    assert s5.rooms[0].members + {1} == {1};
    run := Extend(run, s5, 1, Go, s6);
    run := Extend(run, s6, 1, Go, Later(n, Start, None, {1}, None, None, []));
  }

  lemma SenderAsks(n: Names) returns (run: Run)
    ensures Reaches(run, Later(n, Finding(Held, n.room), None, {1}, None, Some(0), []))
  {
    run := ReaderWaits(n);
    var s0 := Later(n, Start, None, {1}, None, None, []);
    var s1 := Later(n, Finding(Want, n.room), None, {1}, None, None, []);
    run := Extend(run, s0, 0, Join(n.room), s1);
    run := Extend(run, s1, 0, Go, Later(n, Finding(Held, n.room), None, {1}, None, Some(0), []));
  }

  lemma SenderFinds(n: Names) returns (run: Run)
    ensures Reaches(run, Later(n, Adding(Want), Some(0), {1}, None, None, []))
  {
    run := SenderAsks(n);
    var s2 := Later(n, Finding(Held, n.room), None, {1}, None, Some(0), []);
    var s3 := Later(n, Finding(Finished, n.room), None, {1}, None, Some(0), []);
    run := Extend(run, s2, 0, Go, s3);
    run := Extend(run, s3, 0, Go, Later(n, Adding(Want), Some(0), {1}, None, None, []));
  }

  lemma SenderIn(n: Names) returns (run: Run)
    ensures Reaches(run, Later(n, Start, Some(0), {0, 1}, None, None, []))
  {
    run := SenderFinds(n);
    var s4 := Later(n, Adding(Want), Some(0), {1}, None, None, []);
    var s5 := Later(n, Adding(Held), Some(0), {1}, Some(0), None, []);
    var s6 := Later(n, Adding(Finished), Some(0), {0, 1}, Some(0), None, []);
    run := Extend(run, s4, 0, Go, s5);
    assert s5.rooms[0].members + {0} == {0, 1};
    run := Extend(run, s5, 0, Go, s6);
    run := Extend(run, s6, 0, Go, Later(n, Start, Some(0), {0, 1}, None, None, []));
  }

  lemma SenderOut(n: Names) returns (run: Run)
    ensures Reaches(run, Later(n, Start, Some(0), {1}, None, None, []))
  {
    run := SenderIn(n);
    var s := Later(n, Start, Some(0), {0, 1}, None, None, []);
    var s8 := Later(n, Removing(Want, None), Some(0), {0, 1}, None, None, []);
    var s9 := Later(n, Removing(Held, None), Some(0), {0, 1}, Some(0), None, []);
    var s10 := Later(n, Removing(Finished, None), Some(0), {1}, Some(0), None, []);
    run := Extend(run, s, 0, Leave, s8);
    run := Extend(run, s8, 0, Go, s9);
    assert s9.rooms[0].members - {0} == {1};
    run := Extend(run, s9, 0, Go, s10);
    run := Extend(run, s10, 0, Go, Later(n, Start, Some(0), {1}, None, None, []));
  }

  /** Join, leave, post: the post goes into the log of a room that its sender is not in. */
  lemma PostsOutside(n: Names, text: string) returns (run: Run)
    ensures Reaches(run, Later(n, Cast(text, {1}), Some(0), {1}, Some(0), None, [Entry(n.user, text)]))
  {
    run := SenderOut(n);
    var s := Later(n, Start, Some(0), {1}, None, None, []);
    var s12 := Later(n, CastWant(text), Some(0), {1}, None, None, []);
    var s13 := Later(n, CastHeld(text), Some(0), {1}, Some(0), None, []);
    run := Extend(run, s, 0, Post(text), s12);
    run := Extend(run, s12, 0, Go, s13);
    assert s13.rooms[0].log + [Entry(n.user, text)] == [Entry(n.user, text)];
    run := Extend(run, s13, 0, Go, Later(n, Cast(text, {1}), Some(0), {1}, Some(0), None, [Entry(n.user, text)]));
  }

  lemma {:induction false} HeardGrows(room: string, log: seq<Entry>, from: nat, k: nat, to: nat, name: string)
    requires from <= k <= to <= |log|
    ensures Heard(room, log, from, k, name) <= Heard(room, log, from, to, name)
  {
    if k < to {
      HeardGrows(room, log, from, k, to - 1, name);
    }
  }

  /** And the run can go on until the receiver was sent it. */
  lemma BroadcastAfterLeave(n: Names, text: string) returns (run: Run, s: State, longer: Run, end: State)
    requires n.user != n.reader
    ensures Reaches(run, s) && |s.threads| == 2 && |s.rooms| == 1
    ensures !InItsRoom(s, 0) && InItsRoom(s, 1) && s.rooms[0].log == [Entry(n.user, text)]
    ensures Reaches(longer, end) && GoesOn(run, longer)
    ensures |end.threads| == 2 && Broadcast(n.room, n.user, text) in end.threads[1].sent
  {
    s := Later(n, Cast(text, {1}), Some(0), {1}, Some(0), None, [Entry(n.user, text)]);
    run := PostsOutside(n, text);
    longer, end := EverythingArrives(run, s);
    assert longer.states[|run.who|] == run.states[|run.who|] == s;
    RunGrows(longer.states, longer.who, longer.how, |run.who|, |longer.who|);
    ReaderHears(n, text, s, end);
  }

  lemma ReaderHears(n: Names, text: string, s: State, end: State)
    requires n.user != n.reader && s == Later(n, Cast(text, {1}), Some(0), {1}, Some(0), None, [Entry(n.user, text)])
    requires Grows(s, end) && forall u :: 0 <= u < |end.threads| && Joined(end.threads[u]) ==> HasAll(end, u)
    ensures |end.threads| == 2 && Broadcast(n.room, n.user, text) in end.threads[1].sent
  {
    assert ThreadGrows(s.threads[1], end.threads[1]) && HasAll(end, 1);
    var log := end.rooms[0].log;
    assert log[0] == Entry(n.user, text);
    HeardGrows(n.room, log, 0, 1, |log|, n.reader);
    assert Heard(n.room, log, 0, 0, n.reader) == [];
    assert Heard(n.room, log, 0, 1, n.reader) == [Broadcast(n.room, n.user, text)];
    assert end.threads[1].sent[0] == Broadcast(n.room, n.user, text);
  }
}
