/** Whatever the server keeps or sends comes from its users' names and their requests. */
module ChatInputs {
  import opened Messages
  import opened Options
  import opened ChatServer
  import opened ChatSteps
  import opened ChatRuns

  /** The text of the post that a thread is working on. */
  function TextOf(pc: Pc): Option<string> {
    match pc
    case CastWant(text) => Some(text)
    case CastHeld(text) => Some(text)
    case Cast(text, _) => Some(text)
    case Pushing(text, _, _, _) => Some(text)
    case Posted(text, _, _) => Some(text)
    case _ => None
  }

  /** The name of the room that a thread is on its way to. */
  function NameOf(pc: Pc): Option<string> {
    match pc
    case Removing(_, next) => next
    case Finding(_, name) => Some(name)
    case _ => None
  }

  /** A thread gets texts and names only from the requests of its client, and stops only if asked to. */
  ghost predicate Asked(pc: Pc, c: Choice, pc': Pc) {
    && (TextOf(pc').Some? ==> TextOf(pc') == TextOf(pc) || (c.Post? && c.text == TextOf(pc').value))
    && (pc.Start? && c.Join? ==> NameOf(pc') == Some(c.name))
    && (NameOf(pc').Some? && !(pc.Start? && c.Join?) ==> NameOf(pc') == NameOf(pc))
    && (NameOf(pc).Some? && NameOf(pc').None? ==> pc.Finding? && pc.phase == Finished)
    && (pc'.Stopped? <==> pc.Start? && c == Quit)
  }

  lemma StartAsked(s: State, t: nat, c: Choice, s': State)
    requires ThreadOk(s, t) && s.threads[t].pc.Start? && Request(s, t, c, s')
    ensures |s'.threads| == |s.threads| && Asked(s.threads[t].pc, c, s'.threads[t].pc)
  {
  }

  lemma RemoveAsked(s: State, t: nat, c: Choice, s': State)
    requires ThreadOk(s, t) && s.threads[t].pc.Removing? && RemoveStep(s, t, s')
    ensures |s'.threads| == |s.threads| && Asked(s.threads[t].pc, c, s'.threads[t].pc)
  {
  }

  lemma FindAsked(s: State, t: nat, c: Choice, s': State)
    requires ThreadOk(s, t) && s.threads[t].pc.Finding? && FindStep(s, t, s')
    ensures |s'.threads| == |s.threads| && Asked(s.threads[t].pc, c, s'.threads[t].pc)
  {
  }

  lemma AddAsked(s: State, t: nat, c: Choice, s': State)
    requires ThreadOk(s, t) && s.threads[t].pc.Adding? && AddStep(s, t, s')
    ensures |s'.threads| == |s.threads| && Asked(s.threads[t].pc, c, s'.threads[t].pc)
  {
  }

  lemma CastAsked(s: State, t: nat, c: Choice, s': State)
    requires ThreadOk(s, t) && s.threads[t].pc.Cast? && CastStep(s, t, c, s')
    ensures |s'.threads| == |s.threads| && Asked(s.threads[t].pc, c, s'.threads[t].pc)
  {
  }

  lemma TurnAsked(s: State, t: nat, c: Choice, s': State)
    requires ThreadOk(s, t) && (s.threads[t].pc.CastWant? || s.threads[t].pc.CastHeld? || s.threads[t].pc.Posted?)
    requires Step(s, t, c, s')
    ensures |s'.threads| == |s.threads| && Asked(s.threads[t].pc, c, s'.threads[t].pc)
  {
  }

  lemma PushAsked(s: State, t: nat, c: Choice, s': State)
    requires ThreadOk(s, t) && s.threads[t].pc.Pushing? && PushStep(s, t, s')
    ensures |s'.threads| == |s.threads| && Asked(s.threads[t].pc, c, s'.threads[t].pc)
  {
  }

  lemma DequeueAsked(s: State, t: nat, c: Choice, s': State)
    requires ThreadOk(s, t) && DequeueStep(s, t, c, s')
    ensures |s'.threads| == |s.threads| && Asked(s.threads[t].pc, c, s'.threads[t].pc)
  {
  }

  lemma StepAsked(s: State, t: nat, c: Choice, s': State)
    requires ThreadOk(s, t) && Step(s, t, c, s')
    ensures |s'.threads| == |s.threads| && Asked(s.threads[t].pc, c, s'.threads[t].pc)
  {
    match s.threads[t].pc
    case Start => StartAsked(s, t, c, s');
    case Removing(_, _) => RemoveAsked(s, t, c, s');
    case Finding(_, _) => FindAsked(s, t, c, s');
    case Adding(_) => AddAsked(s, t, c, s');
    case CastWant(_) => TurnAsked(s, t, c, s');
    case CastHeld(_) => TurnAsked(s, t, c, s');
    case Cast(_, _) => CastAsked(s, t, c, s');
    case Pushing(_, _, _, _) => PushAsked(s, t, c, s');
    case Posted(_, _, _) => TurnAsked(s, t, c, s');
    case _ => DequeueAsked(s, t, c, s');
  }

  /** Only find_or_create_room makes a room, under the name asked for. */
  lemma NewRoom(s: State, t: nat, c: Choice, s': State)
    requires ThreadOk(s, t) && Step(s, t, c, s') && Effect(s, t, s') && |s'.rooms| > |s.rooms|
    ensures |s'.rooms| == |s.rooms| + 1
    ensures s'.rooms[|s.rooms|].log == [] && NameOf(s.threads[t].pc) == Some(s'.rooms[|s.rooms|].name)
  {
    assert s.threads[t].pc.Finding? || |s'.rooms| == |s.rooms|;
  }

  // ----- over a run

  ghost predicate Joins(how: seq<Choice>, name: string) {
    exists k :: 0 <= k < |how| && how[k] == Choice.Join(name)
  }

  ghost predicate PostsText(how: seq<Choice>, text: string) {
    exists k :: 0 <= k < |how| && how[k] == Choice.Post(text)
  }

  ghost predicate IsUser(s: State, name: string) {
    exists t :: 0 <= t < |s.threads| && s.threads[t].name == name
  }

  ghost predicate PcFrom(how: seq<Choice>, pc: Pc) {
    (TextOf(pc).Some? ==> PostsText(how, TextOf(pc).value)) && (NameOf(pc).Some? ==> Joins(how, NameOf(pc).value))
  }

  ghost predicate RoomFrom(s: State, how: seq<Choice>, room: Room) {
    Joins(how, room.name) && forall k :: 0 <= k < |room.log| ==> IsUser(s, room.log[k].sender) && PostsText(how, room.log[k].text)
  }

  ghost predicate AllFrom(s: State, how: seq<Choice>) {
    && (forall t :: 0 <= t < |s.threads| ==> PcFrom(how, s.threads[t].pc))
    && (forall r :: 0 <= r < |s.rooms| ==> RoomFrom(s, how, s.rooms[r]))
  }

  lemma StepFrom(s: State, t: nat, c: Choice, s': State, how: seq<Choice>)
    requires ThreadOk(s, t) && Step(s, t, c, s') && Effect(s, t, s') && AllFrom(s, how) && c in how
    ensures AllFrom(s', how)
  {
    StepAsked(s, t, c, s');
    if |s'.rooms| > |s.rooms| {
      NewRoom(s, t, c, s');
    }
    assert PcFrom(how, s.threads[t].pc);
    var k :| 0 <= k < |how| && how[k] == c;
    forall x | 0 <= x < |s'.threads|
      ensures PcFrom(how, s'.threads[x].pc)
    {
      assert PcFrom(how, s.threads[x].pc);
    }
    forall r | 0 <= r < |s'.rooms|
      ensures RoomFrom(s', how, s'.rooms[r])
    {
      RoomStaysFrom(s, t, s', how, r);
    }
  }

  lemma RoomStaysFrom(s: State, t: nat, s': State, how: seq<Choice>, r: nat)
    requires InRange(s, t) && Effect(s, t, s') && AllFrom(s, how) && r < |s'.rooms|
    requires r >= |s.rooms| ==> s'.rooms[r].log == [] && Joins(how, s'.rooms[r].name)
    ensures RoomFrom(s', how, s'.rooms[r])
  {
    assert PcFrom(how, s.threads[t].pc);
    var room := s'.rooms[r];
    forall name | IsUser(s, name)
      ensures IsUser(s', name)
    {
      var x :| 0 <= x < |s.threads| && s.threads[x].name == name;
      assert s'.threads[x].name == name;
    }
    if r < |s.rooms| {
      assert RoomFrom(s, how, s.rooms[r]) && room.log == LogAfter(s, t, r);
      assert IsUser(s, s.threads[t].name);
    }
  }

  lemma InitialFrom(s: State, how: seq<Choice>)
    requires Initial(s)
    ensures AllFrom(s, how)
  {
  }

  /** In every run, rooms are named as some request asked, and logs hold posts by users. */
  lemma {:induction false} RunFrom(run: seq<State>, who: seq<nat>, how: seq<Choice>, i: nat)
    requires IsRun(run, who, how) && i < |run|
    ensures AllFrom(run[i], how)
  {
    if i == 0 {
      InitialFrom(run[0], how);
    } else {
      RunFrom(run, who, how, i - 1);
      NextFrom(run, who, how, i - 1);
    }
  }

  lemma NextFrom(run: seq<State>, who: seq<nat>, how: seq<Choice>, i: nat)
    requires IsRun(run, who, how) && i < |who| && AllFrom(run[i], how)
    ensures AllFrom(run[i + 1], how)
  {
    RunEffect(run, who, how, i);
    assert Moves(run, who, how, i);
    assert ThreadOk(run[i], who[i]);
    StepFrom(run[i], who[i], how[i], run[i + 1], how);
  }

  // ----- the room that a thread keeps

  /** The name in the last join that the client of `t` asked for. */
  ghost function LastName(run: seq<State>, who: seq<nat>, how: seq<Choice>, i: nat, t: nat): Option<string>
    requires i < |run| && i <= |who| == |how|
  {
    if i == 0 then None else NameAfter(run[i - 1], who[i - 1], how[i - 1], t, LastName(run, who, how, i - 1, t))
  }

  function NameAfter(s: State, x: nat, c: Choice, t: nat, before: Option<string>): Option<string> {
    if x == t && t < |s.threads| && s.threads[t].pc.Start? && c.Join? then Some(c.name) else before
  }

  /** The room kept bears the name asked for, unless the thread is on its way to another. */
  ghost predicate KeepsNamed(s: State, t: nat, asked: Option<string>)
    requires t < |s.threads|
  {
    var th := s.threads[t];
    if NameOf(th.pc).Some? then asked == NameOf(th.pc)
    else th.room.Some? ==> th.room.value < |s.rooms| && asked == Some(s.rooms[th.room.value].name)
  }

  lemma StepNamed(s: State, t: nat, c: Choice, s': State, asked: Option<string>)
    requires Inv(s) && InRange(s, t) && Step(s, t, c, s') && Effect(s, t, s') && KeepsNamed(s, t, asked)
    ensures KeepsNamed(s', t, NameAfter(s, t, c, t, asked))
  {
    assert ThreadOk(s, t);
    StepAsked(s, t, c, s');
  }

  lemma OtherNamed(s: State, x: nat, s': State, t: nat, asked: Option<string>)
    requires Inv(s) && InRange(s, x) && Effect(s, x, s') && t < |s.threads| && t != x && KeepsNamed(s, t, asked)
    ensures KeepsNamed(s', t, asked)
  {
    assert ThreadOk(s, t);
  }

  lemma NextNamed(run: seq<State>, who: seq<nat>, how: seq<Choice>, i: nat, t: nat, asked: Option<string>)
    requires IsRun(run, who, how) && i < |who| && t < |run[i].threads| && |run[i + 1].threads| == |run[i].threads|
    requires KeepsNamed(run[i], t, asked)
    ensures KeepsNamed(run[i + 1], t, NameAfter(run[i], who[i], how[i], t, asked))
  {
    RunEffect(run, who, how, i);
    assert Moves(run, who, how, i);
    if who[i] == t {
      StepNamed(run[i], t, how[i], run[i + 1], asked);
    } else {
      OtherNamed(run[i], who[i], run[i + 1], t, asked);
    }
  }

  lemma {:induction false} RunNamed(run: seq<State>, who: seq<nat>, how: seq<Choice>, i: nat, t: nat)
    requires IsRun(run, who, how) && i < |run| && t < |run[i].threads|
    ensures KeepsNamed(run[i], t, LastName(run, who, how, i, t))
  {
    if i > 0 {
      NextGrows(run, who, how, i - 1);
      RunNamed(run, who, how, i - 1, t);
      NextNamed(run, who, how, i - 1, t, LastName(run, who, how, i - 1, t));
    }
  }

  /** Who is in a room asked for it by name in its last join. */
  lemma MembersAsked(run: seq<State>, who: seq<nat>, how: seq<Choice>, i: nat, r: nat, t: nat)
    requires IsRun(run, who, how) && i < |run| && r < |run[i].rooms| && t in run[i].rooms[r].members
    ensures t < |run[i].threads|
    ensures NameOf(run[i].threads[t].pc).None? ==> LastName(run, who, how, i, t) == Some(run[i].rooms[r].name)
  {
    RunInv(run, who, how, i);
    assert RoomOk(run[i], r);
    RunNamed(run, who, how, i, t);
  }

  /** A broadcast goes into the room that the sender's client named in its last join. */
  lemma CasterAsked(run: seq<State>, who: seq<nat>, how: seq<Choice>, i: nat, t: nat)
    requires IsRun(run, who, how) && i < |run| && t < |run[i].threads| && run[i].threads[t].pc.CastHeld?
    ensures InRange(run[i], t)
    ensures LastName(run, who, how, i, t) == Some(run[i].rooms[run[i].threads[t].room.value].name)
  {
    AllInRange(run, who, how, i, t);
    RunNamed(run, who, how, i, t);
  }

  // ----- the end of a thread

  ghost predicate HasQuit(run: seq<State>, who: seq<nat>, how: seq<Choice>, i: nat, t: nat)
    requires i < |run| && i <= |who| == |how|
  {
    exists j :: 0 <= j < i && who[j] == t && t < |run[j].threads| && run[j].threads[t].pc.Start? && how[j] == Quit
  }

  lemma NextStops(run: seq<State>, who: seq<nat>, how: seq<Choice>, i: nat, t: nat)
    requires IsRun(run, who, how) && i < |who| && t < |run[i].threads| && |run[i + 1].threads| == |run[i].threads|
    ensures run[i + 1].threads[t].pc.Stopped? <==>
      run[i].threads[t].pc.Stopped? || (who[i] == t && run[i].threads[t].pc.Start? && how[i] == Quit)
  {
    RunEffect(run, who, how, i);
    assert Moves(run, who, how, i);
    assert ThreadOk(run[i], who[i]);
    StepAsked(run[i], who[i], how[i], run[i + 1]);
  }

  /** A thread has stopped exactly when its client has quit. */
  lemma {:induction false} StoppedIff(run: seq<State>, who: seq<nat>, how: seq<Choice>, i: nat, t: nat)
    requires IsRun(run, who, how) && i < |run| && t < |run[i].threads|
    ensures run[i].threads[t].pc.Stopped? <==> HasQuit(run, who, how, i, t)
  {
    if i > 0 {
      NextGrows(run, who, how, i - 1);
      StoppedIff(run, who, how, i - 1, t);
      NextStops(run, who, how, i - 1, t);
    }
  }
}
