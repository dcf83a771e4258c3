/** Messages over a socket: framing on the buffered reader, and the receiver's loop. */
module Connections {
  import opened Rio
  import opened Messages

  datatype LastResult = Success | EofOrError

  /** Asking for a line of `stream` leaves `rest`, and of the descriptor's script `after`. */
  ghost predicate LineTaken(stream: seq<char>, rest: seq<char>, script: seq<Event>, after: seq<Event>, ok: bool) {
    && IsSuffix(after, script) && (ok <==> stream != [] && !Failed(script, after))
    && (if ok then rest == stream[ReceiveLength(stream)..] else IsSuffix(rest, stream))
    && (NoFailure(script) ==> NoFailure(after) && ok == (stream != []) && (!ok ==> rest == []))
  }

  class Connection {
    const rio: Reader
    const out: OutFd
    var lastResult: LastResult

    ghost predicate Valid()
      reads this, rio
    {
      rio.Valid()
    }

    constructor (input: InFd, output: OutFd)
      ensures Valid() && fresh(rio) && fresh(rio.buf) && rio.fd == input && out == output
      ensures rio.Unread() == input.pending && lastResult == Success
    {
      rio := new Reader(input);
      out, lastResult := output, Success;
    }

    method Send(msg: Message) returns (ok: bool)
      modifies out
      ensures ok ==> out.written == old(out.written) + Encode(msg)
      ensures !ok ==> exists k :: 0 <= k < |Encode(msg)| && out.written == old(out.written) + Encode(msg)[..k]
      ensures Used(old(out.script), out.script, !ok)
      ensures NoFailure(old(out.script)) ==> ok && NoFailure(out.script)
    {
      var rc := RioWriten(out, Encode(msg));
      ok := rc >= 0;
    }

    /** Takes a line off the stream; at its end, or on an error, the message stays as it was. */
    method Receive(msg: Message) returns (ok: bool, result: Message)
      requires Valid()
      modifies this, rio, rio.fd, rio.buf
      ensures Valid()
      ensures LineTaken(old(rio.Unread()), rio.Unread(), old(rio.fd.script), rio.fd.script, ok)
      ensures if ok then result == Received(old(rio.Unread())) && lastResult == old(lastResult)
        else result == msg && lastResult == EofOrError
    {
      var text;
      ok, text := ReadText();
      if ok {
        result := BufferToMessage(text);
      } else {
        lastResult := EofOrError;
        result := msg;
      }
    }

    /** The next line as a C string in a buffer. */
    method ReadText() returns (ok: bool, text: string)
      requires Valid()
      modifies rio, rio.fd, rio.buf
      ensures Valid()
      ensures LineTaken(old(rio.Unread()), rio.Unread(), old(rio.fd.script), rio.fd.script, ok)
      ensures ok ==> text == CString(old(rio.Unread())[..ReceiveLength(old(rio.Unread()))])
    {
      ghost var stream := rio.Unread();
      var buf := new char[MAXLINE];
      var rc := rio.RioReadlineb(buf, MAXLINE);
      EmptyLineIff(stream, MAXLINE - 1);
      ok, text := rc > 0, "";
      if ok {
        LineInBuffer(buf[..], stream[..rc]);
        text := CString(buf[..]);
      }
    }
  }

  lemma LineInBuffer(buf: seq<char>, line: seq<char>)
    requires |line| < |buf| && buf[..|line|] == line && buf[|line|] == '\0'
    ensures CString(buf) == CString(line)
  {
    assert buf == line + ['\0'] + buf[|line| + 1..];
    CStringOfLine(line, buf[|line| + 1..]);
  }

  /** The NUL that rio_readlineb writes ends the string, unless the line holds one before it. */
  lemma {:induction false} CStringOfLine(line: seq<char>, rest: seq<char>)
    ensures CString(line + ['\0'] + rest) == CString(line)
  {
    if line != [] {
      assert (line + ['\0'] + rest)[1..] == line[1..] + ['\0'] + rest;
      CStringOfLine(line[1..], rest);
    }
  }

  /** What the receiver prints for one message. */
  function Output(m: Message): (out: string)
    ensures m.tag != "delivery" ==> out == ""
  {
    if m.tag == TAG_DELIVERY then Print(Shown(m.data)) else ""
  }

  function AfterReceive(stream: seq<char>): (rest: seq<char>)
    ensures stream != [] ==> |rest| < |stream|
  {
    stream[ReceiveLength(stream)..]
  }

  /** What it prints for a stream of messages. */
  function Printout(stream: seq<char>): string
    decreases |stream|
  {
    if stream == [] then "" else Output(Received(stream)) + Printout(AfterReceive(stream))
  }

  /** What it prints for these messages. */
  function OutputAll(ms: seq<Message>): string {
    if ms == [] then "" else OutputAll(ms[..|ms| - 1]) + Output(ms[|ms| - 1])
  }

  /** What is left of the stream after `k` messages. */
  function RestAfter(stream: seq<char>, k: nat): seq<char> {
    if k == 0 || stream == [] then stream else RestAfter(AfterReceive(stream), k - 1)
  }

  lemma {:induction false} ReceiveOneMore(stream: seq<char>, k: nat)
    requires RestAfter(stream, k) != []
    ensures ReceiveAll(stream, k + 1) == ReceiveAll(stream, k) + [Received(RestAfter(stream, k))]
    ensures RestAfter(stream, k + 1) == AfterReceive(RestAfter(stream, k))
  {
    if k > 0 {
      ReceiveOneMore(AfterReceive(stream), k - 1);
    }
  }

  lemma OutputOneMore(ms: seq<Message>, m: Message)
    ensures OutputAll(ms + [m]) == OutputAll(ms) + Output(m)
  {
    assert (ms + [m])[..|ms|] == ms;
  }

  lemma PrintoutStep(stream: seq<char>, printed: string, rest: seq<char>)
    requires rest != [] && Printout(stream) == printed + Printout(rest)
    ensures Printout(stream) == printed + Output(Received(rest)) + Printout(AfterReceive(rest))
  {
    Associate(printed, Output(Received(rest)), Printout(AfterReceive(rest)));
  }

  /** One round of the receiver's loop: what it prints, and whether it goes on. */
  method PrintNext(conn: Connection) returns (going: bool, printed: string)
    requires conn.Valid()
    modifies conn, conn.rio, conn.rio.fd, conn.rio.buf
    ensures conn.Valid()
    ensures LineTaken(old(conn.rio.Unread()), conn.rio.Unread(), old(conn.rio.fd.script), conn.rio.fd.script, going)
    ensures if going then printed == Output(Received(old(conn.rio.Unread())))
      else printed == "" && conn.lastResult == EofOrError
  {
    var incoming;
    going, incoming := conn.Receive(Message("", ""));
    printed := Output(incoming);
  }

  /** What has been printed and what is still to come after `k` messages. */
  ghost predicate Printing(stream: seq<char>, k: nat, printed: string, rest: seq<char>) {
    rest == RestAfter(stream, k) && printed == OutputAll(ReceiveAll(stream, k)) && Printout(stream) == printed + Printout(rest)
  }

  /** Where the loop stands: `unread` is the rest as long as it goes on, and it stops at the end or on a failure. */
  ghost predicate Standing(stream: seq<char>, k: nat, printed: string, unread: seq<char>, going: bool, failed: bool) {
    if going then Printing(stream, k, printed, unread) && !failed
    else Printing(stream, k, printed, RestAfter(stream, k)) && (failed || RestAfter(stream, k) == [] == unread)
  }

  /** One round, printing `line` in the end. */
  lemma PrintingStep(stream: seq<char>, k: nat, printed: string, rest: seq<char>, unread: seq<char>,
      script: seq<Event>, now: seq<Event>, after: seq<Event>, going: bool)
    requires Standing(stream, k, printed, rest, true, Failed(script, now)) && IsSuffix(now, script)
    requires LineTaken(rest, unread, now, after, going)
    ensures var line := if going then Output(Received(rest)) else "";
      Standing(stream, if going then k + 1 else k, printed + line, unread, going, Failed(script, after))
    ensures IsSuffix(after, script) && (going ==> |unread| < |rest|)
  {
    UsedOn(script, now, after, Failed(now, after));
    if going {
      ReceiveOneMore(stream, k);
      OutputOneMore(ReceiveAll(stream, k), Received(rest));
      PrintoutStep(stream, printed, rest);
    } else {
      assert printed + "" == printed;
    }
  }

  /** The receiver's loop: print deliveries until nothing more comes, or a read fails. */
  method PrintDeliveries(conn: Connection) returns (printed: string)
    requires conn.Valid()
    modifies conn, conn.rio, conn.rio.fd, conn.rio.buf
    ensures conn.Valid() && conn.lastResult == EofOrError && IsSuffix(conn.rio.fd.script, old(conn.rio.fd.script))
    ensures exists k: nat :: printed == OutputAll(ReceiveAll(old(conn.rio.Unread()), k))
    ensures !Failed(old(conn.rio.fd.script), conn.rio.fd.script) ==>
      printed == Printout(old(conn.rio.Unread())) && conn.rio.Unread() == []
  {
    printed := "";
    var going := true;
    ghost var stream, script, k := conn.rio.Unread(), conn.rio.fd.script, 0;
    while going
      invariant conn.Valid() && IsSuffix(conn.rio.fd.script, script)
      invariant Standing(stream, k, printed, conn.rio.Unread(), going, Failed(script, conn.rio.fd.script))
      invariant !going ==> conn.lastResult == EofOrError
      decreases going, |conn.rio.Unread()|
    {
      var line;
      ghost var rest, now := conn.rio.Unread(), conn.rio.fd.script;
      going, line := PrintNext(conn);
      PrintingStep(stream, k, printed, rest, conn.rio.Unread(), script, now, conn.rio.fd.script, going);
      printed := printed + line;
      k := if going then k + 1 else k;
    }
  }

  lemma Associate(a: string, b: string, c: string)
    ensures a + (b + c) == a + b + c
  {
  }

  // ----- both ends

  lemma {:induction false} EncodeAllSnoc(ms: seq<Message>, m: Message)
    ensures EncodeAll(ms + [m]) == EncodeAll(ms) + Encode(m)
  {
    if ms == [] {
      assert [] + [m] == [m];
    } else {
      assert (ms + [m])[1..] == ms[1..] + [m];
      EncodeAllSnoc(ms[1..], m);
      Associate(Encode(ms[0]), EncodeAll(ms[1..]), Encode(m));
    }
  }

  lemma NextOfStream(m: Message, rest: seq<char>)
    requires Clean(m)
    ensures var stream := Encode(m) + rest;
      stream != [] && Received(stream) == Delivered(m) && stream[ReceiveLength(stream)..] == rest
  {
    RoundTripIff(m, rest);
  }

  /** One message after the other. */
  method SendAll(conn: Connection, ms: seq<Message>)
    requires NoFailure(conn.out.script)
    modifies conn.out
    ensures conn.out.written == old(conn.out.written) + EncodeAll(ms)
  {
    for i := 0 to |ms|
      invariant NoFailure(conn.out.script)
      invariant conn.out.written == old(conn.out.written) + EncodeAll(ms[..i])
    {
      var ok := conn.Send(ms[i]);
      assert ms[..i + 1] == ms[..i] + [ms[i]];
      EncodeAllSnoc(ms[..i], ms[i]);
      Associate(old(conn.out.written), EncodeAll(ms[..i]), Encode(ms[i]));
    }
    assert ms[..|ms|] == ms;
  }

  /** All messages that come before the stream ends. */
  method ReceiveEach(conn: Connection, ghost ms: seq<Message>) returns (got: seq<Message>)
    requires conn.Valid() && NoFailure(conn.rio.fd.script)
    requires conn.rio.Unread() == EncodeAll(ms) && forall i :: 0 <= i < |ms| ==> Clean(ms[i])
    modifies conn, conn.rio, conn.rio.fd, conn.rio.buf
    ensures |got| == |ms| && forall i :: 0 <= i < |ms| ==> got[i] == Delivered(ms[i])
  {
    got := [];
    var going := true;
    while going
      invariant conn.Valid() && NoFailure(conn.rio.fd.script)
      invariant |got| <= |ms| && forall i :: 0 <= i < |got| ==> got[i] == Delivered(ms[i])
      invariant conn.rio.Unread() == EncodeAll(ms[|got|..])
      invariant !going ==> |got| == |ms|
      decreases going, |ms| - |got|
    {
      ghost var left := ms[|got|..];
      if left != [] {
        NextOfStream(left[0], EncodeAll(left[1..]));
        assert left[1..] == ms[|got| + 1..];
      }
      var m;
      going, m := conn.Receive(Message("", ""));
      if going {
        got := got + [m];
      }
    }
  }

  /**
   * A sequence of clean messages sent through any short writes and interrupts, and received over
   * any cut of the stream into reads: the same sequence, each with the newline that receive keeps.
   */
  method Exchange(ms: seq<Message>, writes: seq<Event>, cuts: seq<Event>) returns (got: seq<Message>)
    requires NoFailure(writes) && NoFailure(cuts) && forall i :: 0 <= i < |ms| ==> Clean(ms[i])
    ensures |got| == |ms| && forall i :: 0 <= i < |ms| ==> got[i] == Delivered(ms[i])
  {
    var wire := new OutFd(writes);
    var nothing := new InFd([], []);
    var sender := new Connection(nothing, wire);
    SendAll(sender, ms);
    assert [] + EncodeAll(ms) == EncodeAll(ms);
    var input := new InFd(wire.written, cuts);
    var receiver := new Connection(input, wire);
    got := ReceiveEach(receiver, ms);
  }

  // ----- a room's broadcasts on the screen of a receiver

  datatype Post = Post(user: string, text: string)

  function PostMessage(room: string, post: Post): Message {
    Broadcast(room + "\n", post.user + "\n", post.text + "\n")
  }

  function PostMessages(room: string, posts: seq<Post>): seq<Message> {
    if posts == [] then [] else [PostMessage(room, posts[0])] + PostMessages(room, posts[1..])
  }

  /** The lines a reader of the room expects. */
  function Screen(posts: seq<Post>): string {
    if posts == [] then "" else (posts[0].user + ": " + posts[0].text + "\n") + Screen(posts[1..])
  }

  ghost predicate Plain(s: string) {
    ':' !in s && '\n' !in s
  }

  lemma PostShown(room: string, post: Post)
    requires Plain(room) && Plain(post.user) && Plain(post.text)
    ensures Output(Delivered(PostMessage(room, post))) == post.user + ": " + post.text + "\n"
  {
    StripLast(room);
    StripLast(post.user);
    StripLast(post.text);
    PrintedWhole(room, post.user, post.text);
  }

  /** The post means nothing to the framing, and its delivery fits the wire. */
  ghost predicate Postable(room: string, post: Post) {
    Plain(post.user) && Plain(post.text) && Clean(PostMessage(room, post))
  }

  ghost predicate AllPostable(room: string, posts: seq<Post>) {
    forall i {:trigger Postable(room, posts[i])} :: 0 <= i < |posts| ==> Postable(room, posts[i])
  }

  lemma PostableFrom(room: string, posts: seq<Post>, from: nat, to: nat)
    requires AllPostable(room, posts) && from <= to <= |posts|
    ensures AllPostable(room, posts[from..to])
  {
    forall i | 0 <= i < to - from
      ensures Postable(room, posts[from..to][i])
    {
      assert Postable(room, posts[from + i]);
    }
  }

  lemma PostableTail(room: string, posts: seq<Post>)
    requires AllPostable(room, posts) && posts != []
    ensures Postable(room, posts[0]) && AllPostable(room, posts[1..])
  {
    PostableFrom(room, posts, 1, |posts|);
    assert posts[1..] == posts[1..|posts|];
  }

  /** Every one of a sequence of colon-free posts is printed, in order, as "user: text". */
  lemma {:induction false} PostsPrinted(room: string, posts: seq<Post>)
    requires Plain(room) && AllPostable(room, posts)
    ensures Printout(EncodeAll(PostMessages(room, posts))) == Screen(posts)
  {
    if posts != [] {
      PostableTail(room, posts);
      PostsPrinted(room, posts[1..]);
      PostShown(room, posts[0]);
      FirstPrinted(PostMessage(room, posts[0]), PostMessages(room, posts[1..]));
    }
  }

  lemma FirstPrinted(m: Message, ms: seq<Message>)
    requires Clean(m)
    ensures Printout(EncodeAll([m] + ms)) == Output(Delivered(m)) + Printout(EncodeAll(ms))
  {
    RoundTripIff(m, EncodeAll(ms));
    FirstOfStream(m, EncodeAll(ms));
    assert ([m] + ms)[1..] == ms;
  }

  lemma FirstOfStream(m: Message, rest: seq<char>)
    requires Received(Encode(m) + rest) == Delivered(m) && ReceiveLength(Encode(m) + rest) == |Encode(m)|
    ensures Printout(Encode(m) + rest) == Output(Delivered(m)) + Printout(rest)
  {
    assert AfterReceive(Encode(m) + rest) == rest;
  }
}
