/** From every reachable state, the requests made so far can be carried through to the last message. */
module ChatDelivery {
  import opened Messages
  import opened Options
  import opened Sums
  import opened ChatServer
  import opened ChatSteps
  import opened ChatRuns
  import opened ChatProgress

  // ----- a bound on the steps that are left

  /** Steps left to a thread in a server of `n` threads; a message in a queue stands for seven more. */
  function StepsLeft(pc: Pc, n: nat): nat {
    match pc
    case Start => 0
    case Stopped => 0
    case Removing(phase, _) => 12 + Rest(phase)
    case Finding(phase, _) => 9 + Rest(phase)
    case Adding(phase) => 6 + Rest(phase)
    case CastWant(_) => 12 * n + 5
    case CastHeld(_) => 12 * n + 4
    case Cast(_, left) => 12 * |left| + 3
    case Pushing(_, left, _, phase) => 12 * |left| + (if phase == Want then 2 else if phase == Held then 1 else 5)
    case Posted(_, left, _) => 12 * |left| + 4
    case Waiting => 6
    case Checking => 5
    case PopWant => 4
    case PopHeld => 3
    case Popped(_) => 9
    case Sending(_) => 8
  }

  function Works(s: State): seq<nat> {
    seq(|s.threads|, i requires 0 <= i < |s.threads| => StepsLeft(s.threads[i].pc, |s.threads|))
  }

  function Loads(s: State): seq<nat> {
    seq(|s.boxes|, i requires 0 <= i < |s.boxes| => 7 * |s.boxes[i].queue|)
  }

  function Total(s: State): nat {
    Sum(Works(s)) + Sum(Loads(s))
  }

  /** A step of `t` that touches at most the queue of `u`, with less left to do after it. */
  ghost predicate Nearer(s: State, t: nat, s': State, u: nat) {
    && t < |s.threads| == |s'.threads| && u < |s.boxes| == |s'.boxes|
    && s'.threads == s.threads[t := s'.threads[t]]
    && (forall x :: 0 <= x < |s.boxes| && x != u ==> s'.boxes[x].queue == s.boxes[x].queue)
    && StepsLeft(s'.threads[t].pc, |s.threads|) + 7 * |s'.boxes[u].queue|
       < StepsLeft(s.threads[t].pc, |s.threads|) + 7 * |s.boxes[u].queue|
  }

  lemma NearerTotal(s: State, t: nat, s': State, u: nat)
    requires Nearer(s, t, s', u)
    ensures Total(s') < Total(s)
  {
    SumUpdate(Works(s), t, StepsLeft(s'.threads[t].pc, |s.threads|));
    SumUpdate(Loads(s), u, 7 * |s'.boxes[u].queue|);
    assert Works(s') == Works(s)[t := StepsLeft(s'.threads[t].pc, |s.threads|)];
    assert Loads(s') == Loads(s)[u := 7 * |s'.boxes[u].queue|];
  }

  lemma {:induction false} FewMembers(members: set<nat>, n: nat)
    requires forall u :: u in members ==> u < n
    ensures |members| <= n
  {
    if n > 0 {
      FewMembers(members - {n - 1}, n - 1);
    } else {
      assert members == {};
    }
  }

  lemma RoomNearer(s: State, t: nat, c: Choice, s': State)
    requires ThreadOk(s, t) && Step(s, t, c, s')
    requires s.threads[t].pc.Removing? || s.threads[t].pc.Finding? || s.threads[t].pc.Adding? || s.threads[t].pc.CastWant?
    ensures Nearer(s, t, s', t)
  {
  }

  lemma StartNearer(s: State, t: nat, c: Choice, s': State)
    requires Inv(s) && ThreadOk(s, t) && s.threads[t].pc.CastHeld? && Step(s, t, c, s')
    ensures Nearer(s, t, s', t)
  {
    assert RoomOk(s, s.threads[t].room.value);
    FewMembers(s.rooms[s.threads[t].room.value].members, |s.threads|);
  }

  lemma CastNearer(s: State, t: nat, c: Choice, s': State)
    requires ThreadOk(s, t) && s.threads[t].pc.Cast? && CastStep(s, t, c, s')
    ensures Nearer(s, t, s', t)
  {
    if s'.threads[t].pc.Cast? {
      assert Left(s.threads[t].pc) == Left(s'.threads[t].pc) + {c.to};
    }
  }

  lemma PushNearer(s: State, t: nat, s': State)
    requires ThreadOk(s, t) && s.threads[t].pc.Pushing? && PushStep(s, t, s')
    ensures Nearer(s, t, s', s.threads[t].pc.to)
  {
    if s.threads[t].pc.phase == Held {
      assert Left(s.threads[t].pc) == Left(s'.threads[t].pc) + {s.threads[t].pc.to};
    }
  }

  lemma PostedNearer(s: State, t: nat, c: Choice, s': State)
    requires ThreadOk(s, t) && s.threads[t].pc.Posted? && Step(s, t, c, s')
    ensures Nearer(s, t, s', t)
  {
  }

  /** A token always finds its message, so no step of a receiver goes back. */
  lemma DequeueNearer(s: State, t: nat, c: Choice, s': State)
    requires ThreadOk(s, t) && BoxOk(s, t) && DequeueStep(s, t, c, s') && s' != s
    ensures Nearer(s, t, s', t)
  {
  }

  /** Every step but a new request or a timeout brings the end nearer. */
  lemma StepNearer(s: State, t: nat, c: Choice, s': State)
    requires Inv(s) && ThreadOk(s, t) && Step(s, t, c, s') && s' != s && !s.threads[t].pc.Start?
    ensures Total(s') < Total(s)
  {
    var u := t;
    var pc := s.threads[t].pc;
    assert BoxOk(s, t);
    if pc.Removing? || pc.Finding? || pc.Adding? || pc.CastWant? {
      RoomNearer(s, t, c, s');
    } else if pc.CastHeld? {
      StartNearer(s, t, c, s');
    } else if pc.Cast? {
      CastNearer(s, t, c, s');
    } else if pc.Pushing? {
      PushNearer(s, t, s');
      u := pc.to;
    } else if pc.Posted? {
      PostedNearer(s, t, c, s');
    } else {
      DequeueNearer(s, t, c, s');
    }
    NearerTotal(s, t, s', u);
  }

  // ----- somebody can take such a step

  /** The thread has nothing left to do but serve new requests and wait. */
  ghost predicate Settled(s: State, t: nat)
    requires InRange(s, t)
  {
    s.threads[t].pc.Start? || Idle(s, t)
  }

  lemma SomeoneMoves(s: State, t: nat) returns (x: nat, c: Choice, s': State)
    requires Inv(s) && InRange(s, t) && !Settled(s, t)
    ensures InRange(s, x) && !s.threads[x].pc.Start? && Step(s, x, c, s') && s' != s
  {
    assert ThreadOk(s, t);
    assert BoxOk(s, t);
    x := t;
    if Wanted(s, t) == None {
      FreeSteps(s, t);
    } else {
      HolderOf(s, t);
      x := Wanted(s, t).value;
      if Wanted(s, x) != None {
        HolderOf(s, x);
        x := Wanted(s, x).value;
      }
      HolderSteps(s, x);
    }
    c, s' :| Step(s, x, c, s') && s' != s;
  }

  // ----- when all have settled

  lemma SettledFree(s: State, u: nat)
    requires Inv(s) && u < |s.threads| && (forall t :: 0 <= t < |s.threads| ==> InRange(s, t) && Settled(s, t))
    requires Joined(s.threads[u])
    ensures InRange(s, u) && s.threads[u].room.Some? && s.rooms[s.threads[u].room.value].lock == None
    ensures InHand(s.threads[u].pc) == [] == s.boxes[u].queue
  {
    assert ThreadOk(s, u);
    assert BoxOk(s, u);
    assert RoomOk(s, s.threads[u].room.value);
    var lock, held := s.boxes[u].lock, s.rooms[s.threads[u].room.value].lock;
    assert lock.Some? ==> Settled(s, lock.value);
    assert held.Some? ==> Settled(s, held.value);
  }

  /** All that `u` is to hear has been sent to it. */
  ghost predicate HasAll(s: State, u: nat) {
    && u < |s.threads|
    && var th := s.threads[u];
    && th.room.Some? && th.room.value < |s.rooms|
    && var room := s.rooms[th.room.value];
    IsHeard(th.sent, room, th.joinedAt, |room.log|, th.name)
  }

  /** The longer run begins with the shorter and takes no request after it. */
  ghost predicate GoesOn(run: Run, longer: Run) {
    && run.states <= longer.states && run.who <= longer.who && run.how <= longer.how
    && |longer.states| == |longer.who| + 1
    && forall j :: |run.who| <= j < |longer.who| ==>
         longer.who[j] < |longer.states[j].threads| && !longer.states[j].threads[longer.who[j]].pc.Start?
  }

  lemma OneStepOn(run: Run, s: State, t: nat, c: Choice, s': State, longer: Run)
    requires Reaches(run, s) && t < |s.threads| && !s.threads[t].pc.Start?
    requires GoesOn(Run(run.states + [s'], run.who + [t], run.how + [c]), longer)
    ensures GoesOn(run, longer)
  {
    var n := |run.who|;
    assert longer.states[n] == (run.states + [s'])[n] == s && longer.who[n] == t;
    assert longer.states[..n + 1] == run.states && longer.who[..n] == run.who && longer.how[..n] == run.how;
  }

  lemma AllInRangeNow(run: Run, s: State)
    requires Reaches(run, s)
    ensures Inv(s) && forall t :: 0 <= t < |s.threads| ==> ThreadOk(s, t) && InRange(s, t)
  {
    RunInv(run.states, run.who, run.how, |run.who|);
  }

  lemma AllHaveAll(run: Run, s: State)
    requires Reaches(run, s) && forall t :: 0 <= t < |s.threads| ==> InRange(s, t) && Settled(s, t)
    ensures forall u :: 0 <= u < |s.threads| && Joined(s.threads[u]) ==> HasAll(s, u)
  {
    AllInRangeNow(run, s);
    forall u | 0 <= u < |s.threads| && Joined(s.threads[u])
      ensures HasAll(s, u)
    {
      SettledFree(s, u);
      AllDelivered(run.states, run.who, run.how, |run.who|, u);
    }
  }

  /** One step towards the end, if some thread has not settled. */
  lemma StepOn(run: Run, s: State, t: nat) returns (x: nat, c: Choice, s': State, next: Run)
    requires Reaches(run, s) && InRange(s, t) && !Settled(s, t)
    ensures x < |s.threads| && !s.threads[x].pc.Start? && Total(s') < Total(s)
    ensures next == Run(run.states + [s'], run.who + [x], run.how + [c]) && Reaches(next, s')
  {
    AllInRangeNow(run, s);
    x, c, s' := SomeoneMoves(s, t);
    StepNearer(s, x, c, s');
    next := Extend(run, s, x, c, s');
  }

  /**
   * Every run can go on, without new requests, until no thread has anything left to do; then
   * every receiver in a room was sent all that it is to hear.
   */
  lemma {:induction false} EverythingArrives(run: Run, s: State) returns (longer: Run, end: State)
    requires Reaches(run, s)
    ensures Reaches(longer, end) && GoesOn(run, longer)
    ensures forall t :: 0 <= t < |end.threads| ==> InRange(end, t) && Settled(end, t)
    ensures forall u :: 0 <= u < |end.threads| && Joined(end.threads[u]) ==> HasAll(end, u)
    decreases Total(s)
  {
    AllInRangeNow(run, s);
    if t :| 0 <= t < |s.threads| && !Settled(s, t) {
      var x, c, s', next := StepOn(run, s, t);
      longer, end := EverythingArrives(next, s');
      OneStepOn(run, s, x, c, s', longer);
    } else {
      longer, end := run, s;
      AllHaveAll(run, s);
    }
  }
}
