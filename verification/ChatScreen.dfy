/** From the posts in a room to the receiver's screen, through threads, queues, framing and decoding. */
module ChatScreen {
  import opened Messages
  import opened Options
  import opened Connections
  import opened ChatServer
  import opened ChatRuns
  import opened ChatSteps
  import opened ChatInputs

  /** A name or text as the server got it: plain, with the newline that receive kept. */
  predicate IsLine(s: string) {
    |s| > 0 && s[|s| - 1] == '\n' && ':' !in Chop(s) && '\n' !in Chop(s)
  }

  function Chop(s: string): string {
    if s == "" then s else s[..|s| - 1]
  }

  /** The entry arrives and shows whole: plain lines, and a delivery that fits the wire. */
  predicate Showable(room: string, e: Entry) {
    IsLine(e.sender) && IsLine(e.text) && Clean(Broadcast(room, e.sender, e.text))
  }

  function PostOf(e: Entry): Post {
    Post.Post(Chop(e.sender), Chop(e.text))
  }

  /** The posts from `from` to `to` that the user called `name` should see. */
  function PostsOfOthers(log: seq<Entry>, from: nat, to: nat, name: string): (posts: seq<Post>)
    requires from <= to <= |log|
    ensures |posts| == |HeardAt(log, from, to, name)|
  {
    HeardAtIff(log, from, to, name);
    var at := HeardAt(log, from, to, name);
    seq(|at|, k requires 0 <= k < |at| => assert at[k] in at; PostOf(log[at[k]]))
  }

  lemma ChopLine(s: string)
    requires IsLine(s)
    ensures Chop(s) + "\n" == s
  {
  }

  /** The post shows, and its delivery is the entry's. */
  ghost predicate Shows(room: string, e: Entry) {
    && Postable(Chop(room), PostOf(e))
    && PostMessage(Chop(room), PostOf(e)) == Broadcast(room, e.sender, e.text)
  }

  lemma ShowableShows(room: string, e: Entry)
    requires IsLine(room) && Showable(room, e)
    ensures Shows(room, e)
  {
    ChopLine(room);
    ChopLine(e.sender);
    ChopLine(e.text);
  }

  lemma {:induction false} PostMessagesAt(room: string, posts: seq<Post>, k: nat)
    requires k < |posts|
    ensures |PostMessages(room, posts)| == |posts| && PostMessages(room, posts)[k] == PostMessage(room, posts[k])
  {
    if k > 0 {
      PostMessagesAt(room, posts[1..], k - 1);
    } else if |posts| > 1 {
      PostMessagesAt(room, posts[1..], 0);
    }
  }

  ghost predicate AllShow(room: Room) {
    Plain(Chop(room.name)) && forall j {:trigger Shows(room.name, room.log[j])} :: 0 <= j < |room.log| ==> Shows(room.name, room.log[j])
  }

  /** The k-th message heard is the delivery of the k-th post of others. */
  lemma HeardPost(room: Room, from: nat, to: nat, name: string, k: nat)
    requires AllShow(room) && from <= to <= |room.log| && k < |PostsOfOthers(room.log, from, to, name)|
    ensures var heard, post := Heard(room.name, room.log, from, to, name), PostsOfOthers(room.log, from, to, name)[k];
      && |heard| == |PostsOfOthers(room.log, from, to, name)|
      && heard[k] == PostMessage(Chop(room.name), post) && Postable(Chop(room.name), post)
  {
    var at := HeardAt(room.log, from, to, name);
    HeardIsAt(room.name, room.log, from, to, name);
    assert Shows(room.name, room.log[at[k]]);
  }

  /** What is heard of a log is the posts of others, each as its delivery. */
  lemma HeardPosts(room: Room, from: nat, to: nat, name: string)
    requires AllShow(room) && from <= to <= |room.log|
    ensures Heard(room.name, room.log, from, to, name) == PostMessages(Chop(room.name), PostsOfOthers(room.log, from, to, name))
    ensures |Heard(room.name, room.log, from, to, name)| == |PostsOfOthers(room.log, from, to, name)|
  {
    var heard, posts := Heard(room.name, room.log, from, to, name), PostsOfOthers(room.log, from, to, name);
    HeardAsMany(room.name, room.log, from, to, name);
    PostMessagesLength(Chop(room.name), posts);
    forall k | 0 <= k < |heard|
      ensures heard[k] == PostMessages(Chop(room.name), posts)[k]
    {
      HeardPost(room, from, to, name, k);
      PostMessagesAt(Chop(room.name), posts, k);
    }
  }

  lemma {:induction false} PostMessagesLength(room: string, posts: seq<Post>)
    ensures |PostMessages(room, posts)| == |posts|
  {
    if posts != [] {
      PostMessagesLength(room, posts[1..]);
    }
  }

  // ----- prefixes

  lemma PostMessagesFirst(room: string, posts: seq<Post>, n: nat)
    requires n <= |posts|
    ensures |PostMessages(room, posts)| == |posts| && PostMessages(room, posts)[..n] == PostMessages(room, posts[..n])
  {
    PostMessagesLength(room, posts);
    PostMessagesLength(room, posts[..n]);
    forall k | 0 <= k < n
      ensures PostMessages(room, posts)[k] == PostMessages(room, posts[..n])[k]
    {
      PostMessagesAt(room, posts, k);
      PostMessagesAt(room, posts[..n], k);
    }
  }

  lemma {:induction false} ScreenFirst(posts: seq<Post>, n: nat)
    requires n <= |posts|
    ensures Screen(posts[..n]) <= Screen(posts)
  {
    if n > 0 {
      assert posts[..n][1..] == posts[1..][..n - 1];
      ScreenFirst(posts[1..], n - 1);
    }
  }

  lemma {:induction false} HeardAtGrows(log: seq<Entry>, from: nat, n: nat, m: nat, name: string)
    requires from <= n <= m <= |log|
    ensures HeardAt(log, from, n, name) <= HeardAt(log, from, m, name)
  {
    if n < m {
      HeardAtGrows(log, from, n, m - 1, name);
    }
  }

  lemma PostsGrow(log: seq<Entry>, from: nat, n: nat, m: nat, name: string)
    requires from <= n <= m <= |log|
    ensures PostsOfOthers(log, from, n, name) <= PostsOfOthers(log, from, m, name)
  {
    HeardAtGrows(log, from, n, m, name);
  }

  // ----- the stream that a receiver reads

  const LOGGED_IN := Message("ok", "logged in")
  const JOINED := Message("ok", "joined room")

  /** What the server writes to a receiver: two replies, then what it was sent. */
  function StreamTo(sent: seq<Message>): string {
    EncodeAll([LOGGED_IN, JOINED] + sent)
  }

  /** The replies show nothing. */
  lemma RepliesHidden(sent: seq<Message>)
    ensures Printout(StreamTo(sent)) == Printout(EncodeAll(sent))
  {
    ReplyHidden(LOGGED_IN, [JOINED] + sent);
    ReplyHidden(JOINED, sent);
    assert [LOGGED_IN] + ([JOINED] + sent) == [LOGGED_IN, JOINED] + sent;
  }

  lemma ReplyHidden(m: Message, ms: seq<Message>)
    requires m == LOGGED_IN || m == JOINED
    ensures Printout(EncodeAll([m] + ms)) == Printout(EncodeAll(ms))
  {
    ReplyClean(m);
    FirstPrinted(m, ms);
    assert Delivered(m).tag[0] == 'o' && TAG_DELIVERY[0] == 'd';
  }

  lemma ReplyClean(m: Message)
    requires m == LOGGED_IN || m == JOINED
    ensures Clean(m)
  {
  }

  /** All names are lines, and every post that a request may make shows in every room that one may name. */
  ghost predicate PlainRequests(s: State, how: seq<Choice>) {
    && (forall name :: Joins(how, name) ==> IsLine(name))
    && forall name, user, text :: Joins(how, name) && IsUser(s, user) && PostsText(how, text) ==>
         Showable(name, Entry(user, text))
  }

  lemma PostsOnScreen(room: string, posts: seq<Post>)
    requires Plain(room) && AllPostable(room, posts)
    ensures Printout(StreamTo(PostMessages(room, posts))) == Screen(posts)
  {
    RepliesHidden(PostMessages(room, posts));
    PostsPrinted(room, posts);
  }

  lemma PostsArePostable(room: Room, from: nat, to: nat, name: string)
    requires AllShow(room) && from <= to <= |room.log|
    ensures AllPostable(Chop(room.name), PostsOfOthers(room.log, from, to, name))
  {
    forall k | 0 <= k < |PostsOfOthers(room.log, from, to, name)|
      ensures Postable(Chop(room.name), PostsOfOthers(room.log, from, to, name)[k])
    {
      HeardPost(room, from, to, name, k);
    }
  }

  lemma SameShown(a: seq<Message>, b: seq<Message>)
    requires a == b
    ensures Printout(StreamTo(a)) == Printout(StreamTo(b))
  {
  }

  /** The first n messages of what is heard, on the screen. */
  lemma FirstOnScreen(room: Room, from: nat, to: nat, name: string, sent: seq<Message>)
    requires AllShow(room) && from <= to <= |room.log| && sent <= Heard(room.name, room.log, from, to, name)
    ensures |sent| <= |PostsOfOthers(room.log, from, to, name)| == |Heard(room.name, room.log, from, to, name)|
    ensures Printout(StreamTo(sent)) == Screen(PostsOfOthers(room.log, from, to, name)[..|sent|])
  {
    var posts, n := PostsOfOthers(room.log, from, to, name), |sent|;
    HeardPosts(room, from, to, name);
    PostMessagesFirst(Chop(room.name), posts, n);
    PostsArePostable(room, from, to, name);
    PostableFrom(Chop(room.name), posts, 0, n);
    assert posts[..n] == posts[0..n];
    SameShown(sent, PostMessages(Chop(room.name), posts[..n]));
    PostsOnScreen(Chop(room.name), posts[..n]);
  }

  /** What was sent of a log of which all but its end has been heard so far. */
  lemma SentOnScreen(room: Room, from: nat, heard: nat, name: string, sent: seq<Message>)
    requires AllShow(room) && from <= heard <= |room.log| && sent <= Heard(room.name, room.log, from, heard, name)
    ensures Printout(StreamTo(sent)) <= Screen(PostsOfOthers(room.log, from, |room.log|, name))
  {
    var few, many, n := PostsOfOthers(room.log, from, heard, name), PostsOfOthers(room.log, from, |room.log|, name), |sent|;
    FirstOnScreen(room, from, heard, name, sent);
    PostsGrow(room.log, from, heard, |room.log|, name);
    assert few[..n] == many[..n];
    ScreenFirst(many, n);
  }

  lemma AllOnScreen(room: Room, from: nat, name: string, sent: seq<Message>)
    requires AllShow(room) && IsHeard(sent, room, from, |room.log|, name)
    ensures Printout(StreamTo(sent)) == Screen(PostsOfOthers(room.log, from, |room.log|, name))
  {
    var posts := PostsOfOthers(room.log, from, |room.log|, name);
    FirstOnScreen(room, from, |room.log|, name, sent);
    assert posts[..|sent|] == posts;
  }

  lemma RoomShows(s: State, how: seq<Choice>, room: Room)
    requires PlainRequests(s, how) && RoomFrom(s, how, room)
    ensures AllShow(room)
  {
    forall j | 0 <= j < |room.log|
      ensures Shows(room.name, room.log[j])
    {
      var e := room.log[j];
      assert Showable(room.name, Entry(e.sender, e.text));
      ShowableShows(room.name, e);
    }
  }

  /**
   * What `u` has read so far shows the first of the posts that others made in its room since it
   * joined: each once, in the order of the room, as "user: text". Once all is delivered it shows
   * all of them.
   */
  ghost predicate ShowsRoom(s: State, u: nat) {
    && u < |s.threads| && u < |s.boxes|
    && var th := s.threads[u];
    && th.room.Some? && th.room.value < |s.rooms|
    && var room := s.rooms[th.room.value];
    && th.joinedAt <= |room.log|
    && var shown, all := Printout(StreamTo(th.sent)), Screen(PostsOfOthers(room.log, th.joinedAt, |room.log|, th.name));
    && shown <= all
    && (room.lock == None && InHand(th.pc) == [] == s.boxes[u].queue ==> shown == all)
  }

  /** At every point of every run with plain names and texts, for every receiver that has joined. */
  lemma ReceiverPrintsRoom(run: seq<State>, who: seq<nat>, how: seq<Choice>, i: nat, u: nat)
    requires IsRun(run, who, how) && i < |run| && u < |run[i].threads| && Joined(run[i].threads[u])
    requires PlainRequests(run[0], how)
    ensures ShowsRoom(run[i], u)
  {
    BroadcastsHeard(run, who, how, i, u);
    RoomOfRunShows(run, who, how, i, run[i].threads[u].room.value);
    GotOnScreen(run[i], u);
  }

  lemma SameUsers(s: State, s': State, how: seq<Choice>)
    requires Grows(s, s') && PlainRequests(s, how)
    ensures PlainRequests(s', how)
  {
    forall name | IsUser(s', name)
      ensures IsUser(s, name)
    {
      var t :| 0 <= t < |s'.threads| && s'.threads[t].name == name;
      assert ThreadGrows(s.threads[t], s'.threads[t]);
    }
  }

  lemma RoomOfRunShows(run: seq<State>, who: seq<nat>, how: seq<Choice>, i: nat, r: nat)
    requires IsRun(run, who, how) && i < |run| && r < |run[i].rooms| && PlainRequests(run[0], how)
    ensures AllShow(run[i].rooms[r])
  {
    RunFrom(run, who, how, i);
    RunGrows(run, who, how, 0, i);
    SameUsers(run[0], run[i], how);
    assert RoomFrom(run[i], how, run[i].rooms[r]);
    RoomShows(run[i], how, run[i].rooms[r]);
  }

  lemma GotOnScreen(s: State, u: nat)
    requires u < |s.threads| && u < |s.boxes| && s.threads[u].room.Some? && s.threads[u].room.value < |s.rooms|
    requires var th := s.threads[u];
      var room, pending := s.rooms[th.room.value], Pending(s, th.room.value, u);
      AllShow(room) && IsHeard(Got(s, u), room, th.joinedAt, |room.log| - pending, th.name)
    ensures ShowsRoom(s, u)
  {
    var th := s.threads[u];
    PartsOnScreen(s.rooms[th.room.value], th.joinedAt, Pending(s, th.room.value, u), th.name, th.sent, InHand(th.pc), s.boxes[u].queue);
  }

  lemma PartsOnScreen(room: Room, from: nat, pending: nat, name: string, sent: seq<Message>, hand: seq<Message>, queue: seq<Message>)
    requires AllShow(room) && IsHeard(sent + hand + queue, room, from, |room.log| - pending, name)
    ensures from <= |room.log| && Printout(StreamTo(sent)) <= Screen(PostsOfOthers(room.log, from, |room.log|, name))
    ensures pending == 0 && hand == [] == queue ==>
      Printout(StreamTo(sent)) == Screen(PostsOfOthers(room.log, from, |room.log|, name))
  {
    SentFirst(sent, hand, queue);
    SentOnScreen(room, from, |room.log| - pending, name, sent);
    if pending == 0 && hand == [] == queue {
      AllOnScreen(room, from, name, sent);
    }
  }

  lemma SentFirst(sent: seq<Message>, hand: seq<Message>, queue: seq<Message>)
    ensures sent <= sent + hand + queue
    ensures hand == [] == queue ==> sent + hand + queue == sent
  {
  }
}
