/** What holds in every state of every run of the chat server, in any interleaving. */
module ChatRuns {
  import opened Messages
  import opened Options
  import opened ChatServer
  import opened ChatSteps

  ghost predicate Initial(s: State) {
    && |s.boxes| == |s.threads| && s.rooms == [] && s.names == map[] && s.lock == None
    && (forall t :: 0 <= t < |s.threads| ==>
          s.threads[t].pc == Start && s.threads[t].room == None && s.threads[t].sent == [])
    && forall u :: 0 <= u < |s.boxes| ==> s.boxes[u] == Box([], 0, None)
  }

  /**
   * Any threads in any order, with any choices. `InRange` only makes the step meaningful: it
   * holds of every thread in every state (AllInRange), so it rules out no step.
   */
  ghost predicate IsRun(run: seq<State>, who: seq<nat>, how: seq<Choice>) {
    && |run| == |who| + 1 && |who| == |how| && Initial(run[0])
    && forall i {:trigger Moves(run, who, how, i)} :: 0 <= i < |who| ==> Moves(run, who, how, i)
  }

  /** Step i of the run is one that its thread may take. */
  ghost predicate Moves(run: seq<State>, who: seq<nat>, how: seq<Choice>, i: nat)
    requires i < |who| && |run| == |who| + 1 && |who| == |how|
  {
    InRange(run[i], who[i]) && Step(run[i], who[i], how[i], run[i + 1])
  }

  lemma InitialInv(s: State)
    requires Initial(s)
    ensures Inv(s)
  {
    forall t | 0 <= t < |s.threads|
      ensures ThreadOk(s, t) && BoxOk(s, t) && HeardOk(s, t)
    {
      assert s.threads[t].pc == Start && s.boxes[t] == Box([], 0, None);
    }
  }

  lemma {:induction false} RunInv(run: seq<State>, who: seq<nat>, how: seq<Choice>, i: nat)
    requires IsRun(run, who, how) && i < |run|
    ensures Inv(run[i])
  {
    if i == 0 {
      InitialInv(run[0]);
    } else {
      RunInv(run, who, how, i - 1);
      assert Moves(run, who, how, i - 1);
      EveryStepKeeps(run[i - 1], who[i - 1], how[i - 1], run[i]);
    }
  }

  lemma AllInRange(run: seq<State>, who: seq<nat>, how: seq<Choice>, i: nat, t: nat)
    requires IsRun(run, who, how) && i < |run| && t < |run[i].threads|
    ensures InRange(run[i], t)
  {
    RunInv(run, who, how, i);
    assert ThreadOk(run[i], t);
  }

  // ----- longer runs

  datatype Run = Run(states: seq<State>, who: seq<nat>, how: seq<Choice>)

  ghost predicate Reaches(run: Run, s: State) {
    IsRun(run.states, run.who, run.how) && run.states[|run.who|] == s
  }

  lemma Extend(run: Run, s: State, t: nat, c: Choice, s': State) returns (longer: Run)
    requires Reaches(run, s) && InRange(s, t) && Step(s, t, c, s')
    ensures Reaches(longer, s')
    ensures longer == Run(run.states + [s'], run.who + [t], run.how + [c])
  {
    longer := Run(run.states + [s'], run.who + [t], run.how + [c]);
    var n := |run.who|;
    forall i | 0 <= i < n + 1
      ensures Moves(longer.states, longer.who, longer.how, i)
    {
      if i < n {
        assert Moves(run.states, run.who, run.how, i);
        assert longer.states[i] == run.states[i] && longer.states[i + 1] == run.states[i + 1];
      }
    }
  }

  // ----- one order of messages

  /**
   * What a receiver was sent, has in hand and has queued is what was broadcast in its room since
   * it joined by users of other names, but for a broadcast that holds the room's lock and has
   * not reached it.
   */
  lemma BroadcastsHeard(run: seq<State>, who: seq<nat>, how: seq<Choice>, i: nat, u: nat)
    requires IsRun(run, who, how) && i < |run| && u < |run[i].threads| && Joined(run[i].threads[u])
    ensures var s, th := run[i], run[i].threads[u];
      && th.room.Some? && th.room.value < |s.rooms| && u < |s.boxes| && u in s.rooms[th.room.value].members
      && var room, pending := s.rooms[th.room.value], Pending(s, th.room.value, u);
      IsHeard(Got(s, u), room, th.joinedAt, |room.log| - pending, th.name)
  {
    RunInv(run, who, how, i);
    assert ThreadOk(run[i], u);
    assert HeardOk(run[i], u);
  }

  /** Once nothing is under way, it was sent exactly that. */
  lemma AllDelivered(run: seq<State>, who: seq<nat>, how: seq<Choice>, i: nat, u: nat)
    requires IsRun(run, who, how) && i < |run| && u < |run[i].threads| && Joined(run[i].threads[u])
    requires InRange(run[i], u) && run[i].threads[u].room.Some? && run[i].rooms[run[i].threads[u].room.value].lock == None
    requires InHand(run[i].threads[u].pc) == [] == run[i].boxes[u].queue
    ensures var th := run[i].threads[u];
      var room := run[i].rooms[th.room.value];
      IsHeard(th.sent, room, th.joinedAt, |room.log|, th.name)
  {
    BroadcastsHeard(run, who, how, i, u);
    assert Got(run[i], u) == run[i].threads[u].sent;
  }

  /** The places in a log between `from` and `to` with a sender of another name. */
  function HeardAt(log: seq<Entry>, from: nat, to: nat, name: string): (at: seq<nat>)
    requires from <= to <= |log|
  {
    if from == to then []
    else HeardAt(log, from, to - 1, name) + if log[to - 1].sender == name then [] else [to - 1]
  }

  lemma {:induction false} HeardAtIff(log: seq<Entry>, from: nat, to: nat, name: string)
    requires from <= to <= |log|
    ensures forall p :: p in HeardAt(log, from, to, name) <==> from <= p < to && log[p].sender != name
  {
    if from < to {
      HeardAtIff(log, from, to - 1, name);
    }
  }

  ghost predicate Increasing(at: seq<nat>, to: nat) {
    && (forall a :: 0 <= a < |at| ==> at[a] < to)
    && (forall a, b :: 0 <= a < b < |at| ==> at[a] < at[b])
  }

  lemma {:induction false} HeardAtIncreases(log: seq<Entry>, from: nat, to: nat, name: string)
    requires from <= to <= |log|
    ensures Increasing(HeardAt(log, from, to, name), to)
  {
    if from < to {
      HeardAtIncreases(log, from, to - 1, name);
      assert Increasing(HeardAt(log, from, to - 1, name) + [to - 1], to);
    }
  }

  lemma {:induction false} HeardAsMany(room: string, log: seq<Entry>, from: nat, to: nat, name: string)
    requires from <= to <= |log|
    ensures |Heard(room, log, from, to, name)| == |HeardAt(log, from, to, name)|
  {
    if from < to {
      HeardAsMany(room, log, from, to - 1, name);
    }
  }

  /** The k-th message heard is the delivery of the k-th of these places. */
  lemma {:induction false} HeardAtPlace(room: string, log: seq<Entry>, from: nat, to: nat, name: string, k: nat)
    requires from <= to <= |log| && k < |HeardAt(log, from, to, name)| == |Heard(room, log, from, to, name)|
    ensures HeardAt(log, from, to, name)[k] < |log|
    ensures var e := log[HeardAt(log, from, to, name)[k]];
      Heard(room, log, from, to, name)[k] == Broadcast(room, e.sender, e.text)
  {
    HeardAsMany(room, log, from, to - 1, name);
    if k < |HeardAt(log, from, to - 1, name)| {
      HeardAtPlace(room, log, from, to - 1, name, k);
    }
  }

  lemma HeardIsAt(room: string, log: seq<Entry>, from: nat, to: nat, name: string)
    requires from <= to <= |log|
    ensures var heard, at := Heard(room, log, from, to, name), HeardAt(log, from, to, name);
      && |heard| == |at|
      && forall k :: 0 <= k < |at| ==>
           at[k] < |log| && heard[k] == Broadcast(room, log[at[k]].sender, log[at[k]].text)
  {
    HeardAsMany(room, log, from, to, name);
    forall k | 0 <= k < |HeardAt(log, from, to, name)|
      ensures var heard, at := Heard(room, log, from, to, name), HeardAt(log, from, to, name);
        at[k] < |log| && heard[k] == Broadcast(room, log[at[k]].sender, log[at[k]].text)
    {
      HeardAtPlace(room, log, from, to, name, k);
    }
  }

  /** `at` lists the log entry of each message got: all of those from `from` to `to`, in order, once. */
  ghost predicate Places(got: seq<Message>, room: Room, from: nat, to: nat, name: string, at: seq<nat>)
  {
    && |got| == |at| && from <= to <= |room.log|
    && (forall p :: p in at <==> from <= p < to && room.log[p].sender != name)
    && (forall k :: 0 <= k < |at| ==>
          at[k] < |room.log| && got[k] == Broadcast(room.name, room.log[at[k]].sender, room.log[at[k]].text))
    && Increasing(at, to)
  }

  /** The places in its room's log of what `u` got. */
  ghost predicate GotAt(s: State, u: nat, at: seq<nat>) {
    && u < |s.threads| && u < |s.boxes|
    && var th := s.threads[u];
    && th.room.Some? && th.room.value < |s.rooms| && Pending(s, th.room.value, u) <= |s.rooms[th.room.value].log|
    && var room := s.rooms[th.room.value];
    Places(Got(s, u), room, th.joinedAt, |room.log| - Pending(s, th.room.value, u), th.name, at)
  }

  lemma HeardPlaces(room: Room, from: nat, to: nat, name: string)
    requires from <= to <= |room.log|
    ensures Places(Heard(room.name, room.log, from, to, name), room, from, to, name, HeardAt(room.log, from, to, name))
  {
    HeardAtIff(room.log, from, to, name);
    HeardAtIncreases(room.log, from, to, name);
    HeardIsAt(room.name, room.log, from, to, name);
  }

  lemma PlacesOf(run: seq<State>, who: seq<nat>, how: seq<Choice>, i: nat, u: nat) returns (at: seq<nat>)
    requires IsRun(run, who, how) && i < |run| && u < |run[i].threads| && Joined(run[i].threads[u])
    ensures GotAt(run[i], u, at)
  {
    BroadcastsHeard(run, who, how, i, u);
    at := GotPlaces(run[i], u);
  }

  lemma GotPlaces(s: State, u: nat) returns (at: seq<nat>)
    requires u < |s.threads| && u < |s.boxes| && s.threads[u].room.Some? && s.threads[u].room.value < |s.rooms|
    requires var th := s.threads[u];
      var room, pending := s.rooms[th.room.value], Pending(s, th.room.value, u);
      IsHeard(Got(s, u), room, th.joinedAt, |room.log| - pending, th.name)
    ensures GotAt(s, u, at)
  {
    var th := s.threads[u];
    var room, pending := s.rooms[th.room.value], Pending(s, th.room.value, u);
    at := HeardAt(room.log, th.joinedAt, |room.log| - pending, th.name);
    HeardPlaces(room, th.joinedAt, |room.log| - pending, th.name);
  }

  /**
   * Two receivers in one room, whenever they joined: the broadcasts that both got come in the
   * same order for both, and each of them once.
   */
  lemma SameOrder(run: seq<State>, who: seq<nat>, how: seq<Choice>, i: nat, u: nat, v: nat) returns (us: seq<nat>, vs: seq<nat>)
    requires IsRun(run, who, how) && i < |run| && u < |run[i].threads| && v < |run[i].threads|
    requires Joined(run[i].threads[u]) && Joined(run[i].threads[v]) && run[i].threads[u].room == run[i].threads[v].room
    ensures GotAt(run[i], u, us) && GotAt(run[i], v, vs)
    ensures forall a, b, c, d :: 0 <= a < |us| && 0 <= b < |us| && 0 <= c < |vs| && 0 <= d < |vs| ==>
      us[a] == vs[c] && us[b] == vs[d] ==> (a < b <==> c < d)
  {
    us := PlacesOf(run, who, how, i, u);
    vs := PlacesOf(run, who, how, i, v);
  }

  // ----- what only grows

  /** Rooms, names and logs are kept and logs only grow; who has joined stays and loses nothing. */
  ghost predicate Grows(s: State, s': State) {
    && |s'.threads| == |s.threads| && |s.rooms| <= |s'.rooms|
    && (forall r :: 0 <= r < |s.rooms| ==> s'.rooms[r].name == s.rooms[r].name && s.rooms[r].log <= s'.rooms[r].log)
    && (forall n :: n in s.names ==> n in s'.names && s'.names[n] == s.names[n])
    && forall u :: 0 <= u < |s.threads| ==> ThreadGrows(s.threads[u], s'.threads[u])
  }

  ghost predicate ThreadGrows(th: Thread, th': Thread) {
    && th'.name == th.name && th'.receiver == th.receiver && th.sent <= th'.sent
    && (Joined(th) ==> Joined(th') && th'.room == th.room && th'.joinedAt == th.joinedAt)
  }

  /** The members of room `r` after a step of `t`. */
  ghost function MembersAfter(s: State, t: nat, r: nat): set<nat>
    requires t < |s.threads| && r < |s.rooms|
  {
    var th := s.threads[t];
    if th.room != Some(r) then s.rooms[r].members
    else if th.pc == Adding(Held) then s.rooms[r].members + {t}
    else if th.pc.Removing? && th.pc.phase == Held then s.rooms[r].members - {t}
    else s.rooms[r].members
  }

  /** The log of room `r` after a step of `t`: only the start of a broadcast adds to it. */
  ghost function LogAfter(s: State, t: nat, r: nat): seq<Entry>
    requires t < |s.threads| && r < |s.rooms|
  {
    var th := s.threads[t];
    s.rooms[r].log + if th.room == Some(r) && th.pc.CastHeld? then [Entry(th.name, th.pc.text)] else []
  }

  /** The room that `t` keeps after a step. */
  ghost function RoomAfter(s: State, t: nat): Option<nat>
    requires InRange(s, t)
  {
    var th := s.threads[t];
    if th.pc.Finding? && th.pc.phase == Finished then Some(s.names[th.pc.name]) else th.room
  }

  /** What every step has in common. */
  ghost predicate Effect(s: State, t: nat, s': State)
    requires InRange(s, t)
  {
    && |s'.threads| == |s.threads| && |s.rooms| <= |s'.rooms|
    && (forall x :: 0 <= x < |s.threads| && x != t ==> s'.threads[x] == s.threads[x])
    && ThreadGrows(s.threads[t], s'.threads[t]) && s'.threads[t].room == RoomAfter(s, t)
    && (forall r :: 0 <= r < |s.rooms| ==>
          && s'.rooms[r].name == s.rooms[r].name && s'.rooms[r].log == LogAfter(s, t, r)
          && s'.rooms[r].members == MembersAfter(s, t, r))
    && (forall n :: n in s.names ==> n in s'.names && s'.names[n] == s.names[n])
  }

  lemma RequestEffect(s: State, t: nat, c: Choice, s': State)
    requires ThreadOk(s, t) && s.threads[t].pc.Start? && Request(s, t, c, s')
    ensures Effect(s, t, s')
  {
  }

  lemma RemoveEffect(s: State, t: nat, s': State)
    requires ThreadOk(s, t) && s.threads[t].pc.Removing? && RemoveStep(s, t, s')
    ensures Effect(s, t, s')
  {
  }

  lemma FindEffect(s: State, t: nat, s': State)
    requires ThreadOk(s, t) && s.threads[t].pc.Finding? && FindStep(s, t, s')
    ensures Effect(s, t, s')
  {
  }

  lemma AddEffect(s: State, t: nat, s': State)
    requires ThreadOk(s, t) && s.threads[t].pc.Adding? && AddStep(s, t, s')
    ensures Effect(s, t, s')
  {
  }

  lemma CastEffect(s: State, t: nat, c: Choice, s': State)
    requires ThreadOk(s, t) && s.threads[t].pc.Cast? && CastStep(s, t, c, s')
    ensures Effect(s, t, s')
  {
  }

  lemma StartEffect(s: State, t: nat, c: Choice, s': State)
    requires ThreadOk(s, t) && (s.threads[t].pc.CastWant? || s.threads[t].pc.CastHeld? || s.threads[t].pc.Posted?)
    requires Step(s, t, c, s')
    ensures Effect(s, t, s')
  {
  }

  lemma PushEffect(s: State, t: nat, s': State)
    requires ThreadOk(s, t) && s.threads[t].pc.Pushing? && PushStep(s, t, s')
    ensures Effect(s, t, s')
  {
  }

  lemma DequeueEffect(s: State, t: nat, c: Choice, s': State)
    requires ThreadOk(s, t) && DequeueStep(s, t, c, s')
    ensures Effect(s, t, s')
  {
    var pc := s.threads[t].pc;
    if pc.Waiting? || pc.Checking? || pc.PopWant? {
      WaitEffect(s, t, c, s');
    } else {
      PopEffect(s, t, c, s');
    }
  }

  lemma WaitEffect(s: State, t: nat, c: Choice, s': State)
    requires ThreadOk(s, t) && DequeueStep(s, t, c, s')
    requires s.threads[t].pc.Waiting? || s.threads[t].pc.Checking? || s.threads[t].pc.PopWant?
    ensures Effect(s, t, s')
  {
  }

  lemma PopEffect(s: State, t: nat, c: Choice, s': State)
    requires ThreadOk(s, t) && DequeueStep(s, t, c, s')
    requires s.threads[t].pc.PopHeld? || s.threads[t].pc.Popped? || s.threads[t].pc.Sending?
    ensures Effect(s, t, s')
  {
  }

  lemma StepEffect(s: State, t: nat, c: Choice, s': State)
    requires ThreadOk(s, t) && Step(s, t, c, s')
    ensures Effect(s, t, s')
  {
    match s.threads[t].pc
    case Start => RequestEffect(s, t, c, s');
    case Removing(_, _) => RemoveEffect(s, t, s');
    case Finding(_, _) => FindEffect(s, t, s');
    case Adding(_) => AddEffect(s, t, s');
    case CastWant(_) => StartEffect(s, t, c, s');
    case CastHeld(_) => StartEffect(s, t, c, s');
    case Cast(_, _) => CastEffect(s, t, c, s');
    case Pushing(_, _, _, _) => PushEffect(s, t, s');
    case Posted(_, _, _) => StartEffect(s, t, c, s');
    case _ => DequeueEffect(s, t, c, s');
  }

  lemma RunEffect(run: seq<State>, who: seq<nat>, how: seq<Choice>, i: nat)
    requires IsRun(run, who, how) && i < |who|
    ensures Inv(run[i]) && InRange(run[i], who[i]) && Effect(run[i], who[i], run[i + 1])
  {
    RunInv(run, who, how, i);
    assert Moves(run, who, how, i);
    assert ThreadOk(run[i], who[i]);
    StepEffect(run[i], who[i], how[i], run[i + 1]);
  }

  lemma GrowsOn(s: State, s': State, s'': State)
    requires Grows(s, s') && Grows(s', s'')
    ensures Grows(s, s'')
  {
    forall u | 0 <= u < |s.threads|
      ensures ThreadGrows(s.threads[u], s''.threads[u])
    {
      assert ThreadGrows(s.threads[u], s'.threads[u]);
      assert ThreadGrows(s'.threads[u], s''.threads[u]);
    }
  }

  lemma EffectGrows(s: State, t: nat, s': State)
    requires InRange(s, t) && Effect(s, t, s')
    ensures Grows(s, s')
  {
  }

  lemma NextGrows(run: seq<State>, who: seq<nat>, how: seq<Choice>, i: nat)
    requires IsRun(run, who, how) && i < |who|
    ensures Grows(run[i], run[i + 1])
  {
    RunEffect(run, who, how, i);
    EffectGrows(run[i], who[i], run[i + 1]);
  }

  lemma {:induction false} RunGrows(run: seq<State>, who: seq<nat>, how: seq<Choice>, i: nat, j: nat)
    requires IsRun(run, who, how) && i <= j < |run|
    ensures Grows(run[i], run[j])
  {
    if i < j {
      RunGrows(run, who, how, i, j - 1);
      NextGrows(run, who, how, j - 1);
      GrowsOn(run[i], run[j - 1], run[j]);
    } else {
      GrowsSelf(run[i]);
    }
  }

  lemma GrowsSelf(s: State)
    ensures Grows(s, s)
  {
  }

  // ----- the queues

  /**
   * The semaphore counts the messages queued, but for a token the receiver has taken and a push
   * not posted yet; so after a successful wait there is a message until it is popped.
   */
  lemma QueuesMatchSemaphores(run: seq<State>, who: seq<nat>, how: seq<Choice>, i: nat, u: nat)
    requires IsRun(run, who, how) && i < |run| && u < |run[i].threads|
    ensures var s := run[i];
      && u < |s.boxes|
      && var box, token := s.boxes[u], HasToken(s.threads[u].pc);
      && |box.queue| == box.sem + (if token then 1 else 0)
           + (if exists t :: 0 <= t < |s.threads| && Unposted(s.threads[t].pc) && s.threads[t].pc.to == u then 1 else 0)
      && (token ==> box.queue != [])
  {
    var s := run[i];
    RunInv(run, who, how, i);
    assert BoxOk(s, u);
    forall t | 0 <= t < |s.threads| && Unposted(s.threads[t].pc) && s.threads[t].pc.to == u
      ensures s.boxes[u].lock == Some(t)
    {
      assert ThreadOk(s, t);
    }
  }

  // ----- rooms

  /** One name, one room, for the whole run; and a user is in no room but the one its thread keeps. */
  lemma RoomsUnique(run: seq<State>, who: seq<nat>, how: seq<Choice>, i: nat, j: nat, r: nat, q: nat)
    requires IsRun(run, who, how) && i <= j < |run| && r < |run[i].rooms| && q < |run[j].rooms|
    ensures run[i].rooms[r].name == run[j].rooms[q].name <==> r == q
    ensures forall u :: u in run[i].rooms[r].members ==> u < |run[i].threads| && run[i].threads[u].room == Some(r)
  {
    RunInv(run, who, how, i);
    RunInv(run, who, how, j);
    RunGrows(run, who, how, i, j);
    assert RoomOk(run[i], r);
    assert RoomOk(run[j], q);
  }

  /** Whether the last change of `t`'s membership was a join. */
  ghost predicate LastJoined(run: seq<State>, who: seq<nat>, i: nat, t: nat)
    requires i < |run| && i <= |who|
  {
    if i == 0 then false
    else if who[i - 1] == t && t < |run[i - 1].threads| && run[i - 1].threads[t].pc == Adding(Held) then true
    else if who[i - 1] == t && t < |run[i - 1].threads| && run[i - 1].threads[t].pc.Removing?
      && run[i - 1].threads[t].pc.phase == Held then false
    else LastJoined(run, who, i - 1, t)
  }

  /** A user is in a room exactly when that is the room its thread keeps and it has not left since. */
  lemma {:induction false} MemberIff(run: seq<State>, who: seq<nat>, how: seq<Choice>, i: nat, t: nat, r: nat)
    requires IsRun(run, who, how) && i < |run| && t < |run[i].threads| && r < |run[i].rooms|
    ensures t in run[i].rooms[r].members <==> run[i].threads[t].room == Some(r) && LastJoined(run, who, i, t)
  {
    LastJoinedIff(run, who, how, i, t);
    RunInv(run, who, how, i);
    assert RoomOk(run[i], r);
  }

  ghost predicate InItsRoom(s: State, t: nat)
    requires t < |s.threads|
  {
    s.threads[t].room.Some? && s.threads[t].room.value < |s.rooms| && t in s.rooms[s.threads[t].room.value].members
  }

  lemma {:induction false} LastJoinedIff(run: seq<State>, who: seq<nat>, how: seq<Choice>, i: nat, t: nat)
    requires IsRun(run, who, how) && i < |run| && t < |run[i].threads|
    ensures LastJoined(run, who, i, t) <==> InItsRoom(run[i], t)
  {
    if i > 0 {
      RunEffect(run, who, how, i - 1);
      LastJoinedIff(run, who, how, i - 1, t);
      if who[i - 1] == t {
        OwnMembership(run[i - 1], t, run[i]);
      } else {
        OtherMembership(run[i - 1], who[i - 1], run[i], t);
      }
    }
  }

  lemma OwnMembership(s: State, t: nat, s': State)
    requires Inv(s) && InRange(s, t) && Effect(s, t, s')
    ensures InItsRoom(s', t) <==>
      s.threads[t].pc == Adding(Held)
      || (InItsRoom(s, t) && !(s.threads[t].pc.Removing? && s.threads[t].pc.phase == Held))
  {
    assert ThreadOk(s, t);
    var pc := s.threads[t].pc;
    if s.threads[t].room.Some? {
      assert RoomOk(s, s.threads[t].room.value);
    }
    if pc.Finding? && pc.phase == Finished {
      assert RoomOk(s, s.names[pc.name]);
    }
  }

  lemma OtherMembership(s: State, x: nat, s': State, t: nat)
    requires Inv(s) && InRange(s, x) && Effect(s, x, s') && t < |s.threads| && t != x
    ensures InItsRoom(s', t) <==> InItsRoom(s, t)
  {
    assert ThreadOk(s, t);
  }

  /** Whether `t` has ever found a room. */
  ghost predicate HasFound(run: seq<State>, who: seq<nat>, i: nat, t: nat)
    requires i < |run| && i <= |who|
  {
    exists j :: 0 <= j < i && who[j] == t && t < |run[j].threads| && run[j].threads[t].pc.Finding?
      && run[j].threads[t].pc.phase == Finished
  }

  /**
   * A sender is told that it is not in a room exactly when it never joined one: leaving does not
   * count, so a post after a leave is still broadcast.
   */
  lemma {:induction false} RoomIff(run: seq<State>, who: seq<nat>, how: seq<Choice>, i: nat, t: nat)
    requires IsRun(run, who, how) && i < |run| && t < |run[i].threads|
    ensures run[i].threads[t].room.Some? <==> HasFound(run, who, i, t)
  {
    if i > 0 {
      NextGrows(run, who, how, i - 1);
      RoomIff(run, who, how, i - 1, t);
      NextRoom(run, who, how, i - 1, t);
    }
  }

  lemma NextRoom(run: seq<State>, who: seq<nat>, how: seq<Choice>, i: nat, t: nat)
    requires IsRun(run, who, how) && i < |who| && t < |run[i].threads|
    ensures t < |run[i + 1].threads|
    ensures run[i + 1].threads[t].room.Some? <==>
      run[i].threads[t].room.Some? || (who[i] == t && run[i].threads[t].pc.Finding? && run[i].threads[t].pc.phase == Finished)
  {
    RunEffect(run, who, how, i);
  }

  // ----- posts

  /** What `t` posted that was not refused. */
  ghost function Posts(run: seq<State>, who: seq<nat>, how: seq<Choice>, i: nat, t: nat): seq<Entry>
    requires i < |run| && i <= |who| && |who| == |how|
  {
    if i == 0 then []
    else
      Posts(run, who, how, i - 1, t) +
      if who[i - 1] == t && t < |run[i - 1].threads| then Accepted(run[i - 1].threads[t], how[i - 1]) else []
  }

  /** A sender with a room takes a post; without one it answers "not in a room". */
  function Accepted(th: Thread, c: Choice): seq<Entry> {
    if c.Post? && th.pc.Start? && th.room.Some? && !th.receiver then [Entry(th.name, c.text)] else []
  }

  /** What `t` added to the log of its room. */
  ghost function Logged(run: seq<State>, who: seq<nat>, i: nat, t: nat): seq<Entry>
    requires i < |run| && i <= |who|
  {
    if i == 0 then []
    else Logged(run, who, i - 1, t) + if who[i - 1] == t then LogGrowth(run[i - 1], run[i], t) else []
  }

  ghost function LogGrowth(s: State, s': State, t: nat): seq<Entry> {
    if t < |s.threads| && s.threads[t].room.Some? then
      var r := s.threads[t].room.value;
      if r < |s.rooms| && r < |s'.rooms| && s.rooms[r].log <= s'.rooms[r].log
      then s'.rooms[r].log[|s.rooms[r].log|..] else []
    else []
  }

  /** A post on its way to the room's lock. */
  function Underway(th: Thread): seq<Entry> {
    if th.pc.CastWant? || th.pc.CastHeld? then [Entry(th.name, th.pc.text)] else []
  }

  /** Each post of a sender that ever joined is broadcast once, in the order posted, and nothing else is. */
  lemma {:induction false} PostsBroadcastOnce(run: seq<State>, who: seq<nat>, how: seq<Choice>, i: nat, t: nat)
    requires IsRun(run, who, how) && i < |run| && t < |run[i].threads|
    ensures Posts(run, who, how, i, t) == Logged(run, who, i, t) + Underway(run[i].threads[t])
  {
    if i > 0 {
      NextGrows(run, who, how, i - 1);
      PostsBroadcastOnce(run, who, how, i - 1, t);
      if who[i - 1] == t {
        NextPosts(run, who, how, i - 1);
        Shift(Posts(run, who, how, i - 1, t), Logged(run, who, i - 1, t), Underway(run[i - 1].threads[t]),
              Accepted(run[i - 1].threads[t], how[i - 1]), LogGrowth(run[i - 1], run[i], t), Underway(run[i].threads[t]));
      } else {
        NextOthers(run, who, how, i - 1, t);
      }
    }
  }

  lemma NextPosts(run: seq<State>, who: seq<nat>, how: seq<Choice>, i: nat)
    requires IsRun(run, who, how) && i < |who|
    ensures var s, s', t := run[i], run[i + 1], who[i];
      && t < |s.threads| && t < |s'.threads|
      && Underway(s.threads[t]) + Accepted(s.threads[t], how[i]) == LogGrowth(s, s', t) + Underway(s'.threads[t])
  {
    RunEffect(run, who, how, i);
    assert Moves(run, who, how, i);
    assert ThreadOk(run[i], who[i]);
    PostStep(run[i], who[i], how[i], run[i + 1]);
  }

  lemma NextOthers(run: seq<State>, who: seq<nat>, how: seq<Choice>, i: nat, t: nat)
    requires IsRun(run, who, how) && i < |who| && t < |run[i].threads| && t != who[i]
    ensures t < |run[i + 1].threads| && run[i + 1].threads[t] == run[i].threads[t]
  {
    RunEffect(run, who, how, i);
  }

  lemma Shift<T>(all: seq<T>, past: seq<T>, now: seq<T>, more: seq<T>, done: seq<T>, next: seq<T>)
    requires all == past + now && now + more == done + next
    ensures all + more == past + done + next
  {
    assert all + more == past + (now + more);
  }

  lemma PostStep(s: State, t: nat, c: Choice, s': State)
    requires ThreadOk(s, t) && Step(s, t, c, s') && Effect(s, t, s')
    ensures Underway(s.threads[t]) + Accepted(s.threads[t], c) == LogGrowth(s, s', t) + Underway(s'.threads[t])
  {
    LogStep(s, t, s');
    var pc := s.threads[t].pc;
    if pc.Start? {
      RequestUnderway(s, t, c, s');
    } else if pc.CastWant? || pc.CastHeld? {
      CastUnderway(s, t, c, s');
    } else {
      NoneUnderway(s, t, c, s');
    }
  }

  /** Only the start of a broadcast adds to the log. */
  lemma LogStep(s: State, t: nat, s': State)
    requires ThreadOk(s, t) && Effect(s, t, s')
    ensures LogGrowth(s, s', t) ==
      if s.threads[t].pc.CastHeld? then [Entry(s.threads[t].name, s.threads[t].pc.text)] else []
  {
    if s.threads[t].room.Some? {
      assert s'.rooms[s.threads[t].room.value].log == LogAfter(s, t, s.threads[t].room.value);
    }
  }

  lemma RequestUnderway(s: State, t: nat, c: Choice, s': State)
    requires ThreadOk(s, t) && s.threads[t].pc.Start? && Step(s, t, c, s') && |s'.threads| == |s.threads|
    ensures Underway(s.threads[t]) == [] && Underway(s'.threads[t]) == Accepted(s.threads[t], c)
  {
  }

  lemma CastUnderway(s: State, t: nat, c: Choice, s': State)
    requires ThreadOk(s, t) && (s.threads[t].pc.CastWant? || s.threads[t].pc.CastHeld?) && Step(s, t, c, s')
    requires |s'.threads| == |s.threads|
    ensures Underway(s'.threads[t]) == if s.threads[t].pc.CastHeld? then [] else Underway(s.threads[t])
  {
  }

  lemma NoneUnderway(s: State, t: nat, c: Choice, s': State)
    requires ThreadOk(s, t) && Step(s, t, c, s') && |s'.threads| == |s.threads|
    requires !s.threads[t].pc.Start? && !s.threads[t].pc.CastWant? && !s.threads[t].pc.CastHeld?
    ensures Underway(s'.threads[t]) == []
  {
    if Casting(s.threads[t].pc) {
      CastingUnderway(s, t, c, s');
    }
  }

  lemma CastingUnderway(s: State, t: nat, c: Choice, s': State)
    requires ThreadOk(s, t) && Step(s, t, c, s') && |s'.threads| == |s.threads| && Casting(s.threads[t].pc)
    ensures Underway(s'.threads[t]) == []
  {
  }

  /** Only the broadcasts of its own users grow a room's log, one entry at a time. */
  lemma LogsOnlyBroadcasts(run: seq<State>, who: seq<nat>, how: seq<Choice>, i: nat, r: nat)
    requires IsRun(run, who, how) && i < |who| && r < |run[i].rooms|
    ensures who[i] < |run[i].threads| && r < |run[i + 1].rooms|
    ensures var th := run[i].threads[who[i]];
      run[i + 1].rooms[r].log == run[i].rooms[r].log + if th.room == Some(r) then LogGrowth(run[i], run[i + 1], who[i]) else []
    ensures |run[i + 1].rooms[r].log| <= |run[i].rooms[r].log| + 1
  {
    RunEffect(run, who, how, i);
  }
}
