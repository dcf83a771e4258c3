/**
 * The message queue under any number of producers and consumers: a mutex around the deque and a
 * semaphore that counts messages, one step per call on either.
 */
module QueueMachine {
  import opened Messages
  import opened Options

  /** Where a thread is in enqueue or dequeue. */
  datatype Pc =
    | Idle
    | EnqWant(msg: Message)   // at the Guard of enqueue
    | EnqHeld(msg: Message)   // holds the lock, nothing pushed
    | EnqPushed               // holds the lock, pushed, not yet posted
    | EnqPosted               // holds the lock, posted
    | DeqWait                 // in sem_timedwait
    | DeqToken                // the wait succeeded; about to read empty() without the lock
    | DeqWant                 // saw a message; at pthread_mutex_lock
    | DeqHeld                 // holds the lock, nothing popped
    | DeqPopped(msg: Message) // holds the lock, popped
    | DeqNothing              // the wait succeeded but empty() said true

  /** `enqueued` and `popped` record what has gone in and out. */
  datatype State = State(
    queue: seq<Message>, sem: nat, lock: Option<nat>, threads: seq<Pc>,
    enqueued: seq<Message>, popped: seq<Message>)

  predicate Holds(pc: Pc) {
    pc.EnqHeld? || pc.EnqPushed? || pc.EnqPosted? || pc.DeqHeld? || pc.DeqPopped?
  }

  /** A consumer that took a token off the semaphore and has not popped for it yet. */
  predicate HasToken(pc: Pc) {
    pc.DeqToken? || pc.DeqWant? || pc.DeqHeld?
  }

  function Goto(s: State, t: nat, pc: Pc): State
    requires t < |s.threads|
  {
    s.(threads := s.threads[t := pc])
  }

  /** One step of thread `t`; a timed wait may give up at any time. */
  ghost predicate Step(s: State, t: nat, s': State)
    requires t < |s.threads|
  {
    match s.threads[t]
    case Idle => s' == Goto(s, t, DeqWait) || exists m :: s' == Goto(s, t, EnqWant(m))
    case EnqWant(m) => s.lock == None && s' == Goto(s, t, EnqHeld(m)).(lock := Some(t))
    case EnqHeld(m) => s' == Goto(s, t, EnqPushed).(queue := s.queue + [m], enqueued := s.enqueued + [m])
    case EnqPushed => s' == Goto(s, t, EnqPosted).(sem := s.sem + 1)
    case EnqPosted => s' == Goto(s, t, Idle).(lock := None)
    case DeqWait => s' == Goto(s, t, Idle) || (s.sem > 0 && s' == Goto(s, t, DeqToken).(sem := s.sem - 1))
    case DeqToken => s' == Goto(s, t, if s.queue == [] then DeqNothing else DeqWant)
    case DeqWant => s.lock == None && s' == Goto(s, t, DeqHeld).(lock := Some(t))
    case DeqHeld =>
      s.queue != [] &&
      s' == Goto(s, t, DeqPopped(s.queue[0])).(queue := s.queue[1..], popped := s.popped + [s.queue[0]])
    case DeqPopped(_) => s' == Goto(s, t, Idle).(lock := None)
    case DeqNothing => s' == Goto(s, t, Idle)
  }

  function Tokens(threads: seq<Pc>): nat {
    if threads == [] then 0
    else Tokens(threads[..|threads| - 1]) + if HasToken(threads[|threads| - 1]) then 1 else 0
  }

  lemma {:induction false} TokensUpdate(threads: seq<Pc>, t: nat, pc: Pc)
    requires t < |threads|
    ensures Tokens(threads[t := pc]) + (if HasToken(threads[t]) then 1 else 0)
      == Tokens(threads) + (if HasToken(pc) then 1 else 0)
  {
    var n := |threads| - 1;
    if t < n {
      TokensUpdate(threads[..n], t, pc);
      assert threads[t := pc][..n] == threads[..n][t := pc];
    } else {
      assert threads[t := pc][..n] == threads[..n];
    }
  }

  lemma {:induction false} TokenHeld(threads: seq<Pc>, t: nat)
    requires t < |threads| && HasToken(threads[t])
    ensures Tokens(threads) >= 1
  {
    if t < |threads| - 1 {
      TokenHeld(threads[..|threads| - 1], t);
    }
  }

  /** 1 while the holder of the lock has pushed and not posted. */
  function Unposted(s: State): nat {
    if s.lock.Some? && s.lock.value < |s.threads| && s.threads[s.lock.value].EnqPushed? then 1 else 0
  }

  /** Exactly the holder of the lock is inside a critical section. */
  ghost predicate LockOk(s: State) {
    && (forall t :: 0 <= t < |s.threads| && Holds(s.threads[t]) ==> s.lock == Some(t))
    && (s.lock.Some? ==> s.lock.value < |s.threads| && Holds(s.threads[s.lock.value]))
  }

  ghost predicate CountsOk(s: State) {
    && |s.queue| == s.sem + Tokens(s.threads) + Unposted(s)
    && s.enqueued == s.popped + s.queue
  }

  ghost predicate Inv(s: State) {
    && LockOk(s) && CountsOk(s)
    && (forall t :: 0 <= t < |s.threads| ==> !s.threads[t].DeqNothing?)
  }

  lemma StepLocks(s: State, t: nat, s': State)
    requires LockOk(s) && t < |s.threads| && Step(s, t, s')
    ensures LockOk(s')
    ensures Unposted(s') == if s'.threads[t].EnqPushed? then 1 else if s.threads[t].EnqPushed? then 0 else Unposted(s)
  {
  }

  lemma StepCounts(s: State, t: nat, s': State)
    requires LockOk(s) && CountsOk(s) && t < |s.threads| && Step(s, t, s')
    requires Unposted(s') == if s'.threads[t].EnqPushed? then 1 else if s.threads[t].EnqPushed? then 0 else Unposted(s)
    ensures CountsOk(s')
  {
    TokensUpdate(s.threads, t, s'.threads[t]);
  }

  lemma StepInv(s: State, t: nat, s': State)
    requires Inv(s) && t < |s.threads| && Step(s, t, s')
    ensures Inv(s')
  {
    StepLocks(s, t, s');
    StepCounts(s, t, s');
    if HasToken(s.threads[t]) {
      TokenHeld(s.threads, t);
    }
  }

  ghost predicate IsRun(run: seq<State>, who: seq<nat>) {
    && |run| == |who| + 1
    && run[0].queue == [] && run[0].sem == 0 && run[0].lock == None
    && run[0].enqueued == [] && run[0].popped == []
    && (forall t :: 0 <= t < |run[0].threads| ==> run[0].threads[t] == Idle)
    && forall i :: 0 <= i < |who| ==> who[i] < |run[i].threads| && Step(run[i], who[i], run[i + 1])
  }

  lemma {:induction false} NoTokens(threads: seq<Pc>)
    requires forall t :: 0 <= t < |threads| ==> threads[t] == Idle
    ensures Tokens(threads) == 0
  {
    if threads != [] {
      NoTokens(threads[..|threads| - 1]);
    }
  }

  lemma {:induction false} RunInv(run: seq<State>, who: seq<nat>, i: nat)
    requires IsRun(run, who) && i < |run|
    ensures Inv(run[i])
  {
    if i == 0 {
      NoTokens(run[0].threads);
    } else {
      RunInv(run, who, i - 1);
      StepInv(run[i - 1], who[i - 1], run[i]);
    }
  }

  /**
   * In every state of every run the queue holds one message for each count of the semaphore, each
   * unspent token and each push not yet posted; messages leave in the order they came, each once.
   */
  lemma QueueMatchesSemaphore(run: seq<State>, who: seq<nat>, i: nat)
    requires IsRun(run, who) && i < |run|
    ensures var s := run[i];
      && |s.queue| == s.sem + Tokens(s.threads) + Unposted(s)
      && s.enqueued == s.popped + s.queue
  {
    RunInv(run, who, i);
  }

  /** So a wait that succeeds pops a message: it finds one unlocked, and still finds one locked. */
  lemma SuccessfulWaitPops(run: seq<State>, who: seq<nat>, i: nat, t: nat)
    requires IsRun(run, who) && i < |run| && t < |run[i].threads|
    ensures HasToken(run[i].threads[t]) ==> run[i].queue != []
    ensures !run[i].threads[t].DeqNothing?
  {
    RunInv(run, who, i);
    if HasToken(run[i].threads[t]) {
      TokenHeld(run[i].threads, t);
    }
  }

  /** Whoever holds the lock can step, so a thread at the lock never waits forever on its own. */
  lemma HolderSteps(run: seq<State>, who: seq<nat>, i: nat) returns (s': State)
    requires IsRun(run, who) && i < |run| && run[i].lock.Some?
    ensures run[i].lock.value < |run[i].threads| && Step(run[i], run[i].lock.value, s')
  {
    var s := run[i];
    RunInv(run, who, i);
    var t := s.lock.value;
    SuccessfulWaitPops(run, who, i, t);
    var pc := s.threads[t];
    if pc.EnqHeld? {
      s' := Goto(s, t, EnqPushed).(queue := s.queue + [pc.msg], enqueued := s.enqueued + [pc.msg]);
    } else if pc.EnqPushed? {
      s' := Goto(s, t, EnqPosted).(sem := s.sem + 1);
    } else if pc.DeqHeld? {
      s' := Goto(s, t, DeqPopped(s.queue[0])).(queue := s.queue[1..], popped := s.popped + [s.queue[0]]);
    } else {
      s' := Goto(s, t, Idle).(lock := None);
    }
  }

  // ----- whose messages they are

  /** The message that a call of enqueue has still to push. */
  function Unpushed(pc: Pc): seq<Message> {
    if pc.EnqWant? || pc.EnqHeld? then [pc.msg] else []
  }

  /** What thread `t` called enqueue with. */
  ghost function Called(run: seq<State>, who: seq<nat>, i: nat, t: nat): seq<Message>
    requires i < |run| && i <= |who|
  {
    if i == 0 then []
    else Called(run, who, i - 1, t) + if who[i - 1] == t then CallOf(run[i - 1], run[i], t) else []
  }

  /** The argument, when `t` enters enqueue. */
  function CallOf(s: State, s': State, t: nat): seq<Message> {
    if t < |s.threads| && t < |s'.threads| && s.threads[t].Idle? && s'.threads[t].EnqWant? then [s'.threads[t].msg] else []
  }

  /** What the steps of `t` added to the messages enqueued. */
  ghost function Added(run: seq<State>, who: seq<nat>, i: nat, t: nat): seq<Message>
    requires i < |run| && i <= |who|
  {
    if i == 0 then []
    else Added(run, who, i - 1, t) + if who[i - 1] == t then Growth(run[i - 1].enqueued, run[i].enqueued) else []
  }

  function Growth(a: seq<Message>, b: seq<Message>): seq<Message> {
    if a <= b then b[|a|..] else []
  }

  lemma StepAdds(s: State, t: nat, s': State)
    requires t < |s.threads| && Step(s, t, s')
    ensures |s'.threads| == |s.threads| && s.enqueued <= s'.enqueued && s.popped <= s'.popped
    ensures forall x :: 0 <= x < |s.threads| && x != t ==> s'.threads[x] == s.threads[x]
    ensures Unpushed(s.threads[t]) + CallOf(s, s', t) == Growth(s.enqueued, s'.enqueued) + Unpushed(s'.threads[t])
    ensures Growth(s.popped, s'.popped) == if s'.threads[t].DeqPopped? then [s'.threads[t].msg] else []
  {
  }

  lemma Shift<T>(all: seq<T>, past: seq<T>, now: seq<T>, more: seq<T>, done: seq<T>, next: seq<T>)
    requires all == past + now && now + more == done + next
    ensures all + more == past + done + next
  {
    assert all + more == past + (now + more);
  }

  /** Each call of enqueue adds its own message, once, in the order of the calls of its thread. */
  lemma {:induction false} CallsAdded(run: seq<State>, who: seq<nat>, i: nat, t: nat)
    requires IsRun(run, who) && i < |run| && t < |run[i].threads|
    ensures Called(run, who, i, t) == Added(run, who, i, t) + Unpushed(run[i].threads[t])
  {
    if i > 0 {
      var s, s' := run[i - 1], run[i];
      StepAdds(s, who[i - 1], s');
      CallsAdded(run, who, i - 1, t);
      if who[i - 1] == t {
        Shift(Called(run, who, i - 1, t), Added(run, who, i - 1, t), Unpushed(s.threads[t]),
              CallOf(s, s', t), Growth(s.enqueued, s'.enqueued), Unpushed(s'.threads[t]));
      }
    }
  }

  /** A thread that has popped has the message that its last step took out, the oldest in the queue. */
  lemma PoppedIsOldest(run: seq<State>, who: seq<nat>, i: nat)
    requires IsRun(run, who) && i < |who| && Growth(run[i].popped, run[i + 1].popped) != []
    ensures who[i] < |run[i + 1].threads| && run[i].queue != []
    ensures run[i + 1].threads[who[i]] == DeqPopped(run[i].queue[0]) && run[i + 1].queue == run[i].queue[1..]
  {
    StepAdds(run[i], who[i], run[i + 1]);
  }
}
