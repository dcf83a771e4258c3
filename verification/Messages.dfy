/** Messages as text: how they are encoded, read back, broadcast and printed. */
module Messages {
  import opened Rio

  datatype Message = Message(tag: string, data: string)

  const TAG_DELIVERY := "delivery"
  /** The buffer a message is received into. */
  const MAXLINE: nat := 8192

  // ----- std::string

  /** find(c, from): the first `c` from `from` on, -1 for npos. */
  function FindChar(s: string, c: char, from: nat): (k: int)
    requires from <= |s|
    ensures k == -1 || from <= k < |s|
    ensures k >= 0 ==> s[k] == c && forall i :: from <= i < k ==> s[i] != c
    ensures k < 0 ==> forall i :: from <= i < |s| ==> s[i] != c
    decreases |s| - from
  {
    if from == |s| then -1
    else if s[from] == c then from
    else FindChar(s, c, from + 1)
  }

  /** substr(pos, count); a negative count is one too large to matter. */
  function Substr(s: string, pos: nat, count: int): string
    requires pos <= |s|
  {
    if 0 <= count < |s| - pos then s[pos..pos + count] else s[pos..]
  }

  /** What a C string in `buf` holds. */
  function CString(buf: seq<char>): string {
    if buf == [] || buf[0] == '\0' then "" else [buf[0]] + CString(buf[1..])
  }

  /** A C string is what comes before the first NUL. */
  lemma {:induction false} CStringCut(s: seq<char>)
    ensures CString(s) <= s
    ensures '\0' !in s ==> CString(s) == s
    ensures '\0' in s ==> |CString(s)| < |s|
  {
    if s != [] {
      CStringCut(s[1..]);
    }
  }

  // ----- encoding and decoding

  /** What Connection::send writes. */
  function Encode(m: Message): string {
    m.tag + ":" + m.data + "\n"
  }

  function EncodeAll(ms: seq<Message>): string {
    if ms == [] then "" else Encode(ms[0]) + EncodeAll(ms[1..])
  }

  /** bufferToMessage: without a colon, npos + 1 wraps to 0 and the data is all but the last character. */
  function BufferToMessage(str: string): Message {
    var colon := FindChar(str, ':', 0);
    if colon < 0 then Message(str, Substr(str, 0, |str| - 1))
    else Message(Substr(str, 0, colon), Substr(str, colon + 1, |str| - 1))
  }

  /** What the next receive takes off the stream, and the message it makes of it. */
  function ReceiveLength(stream: seq<char>): (n: nat)
    ensures n <= |stream|
  {
    LineLength(stream, MAXLINE - 1)
  }

  function Received(stream: seq<char>): Message {
    BufferToMessage(CString(stream[..ReceiveLength(stream)]))
  }

  /** `count` receives in a row. */
  function ReceiveAll(stream: seq<char>, count: nat): seq<Message> {
    if count == 0 || stream == [] then []
    else [Received(stream)] + ReceiveAll(stream[ReceiveLength(stream)..], count - 1)
  }

  /** `receive` keeps the newline that ends the line. */
  function Delivered(m: Message): Message {
    Message(m.tag, m.data + "\n")
  }

  /** The messages that survive the wire. */
  predicate Clean(m: Message) {
    && ':' !in m.tag && '\n' !in m.tag && '\0' !in m.tag
    && '\n' !in m.data && '\0' !in m.data
    && |Encode(m)| <= 8191
  }

  lemma {:induction false} LineOf(s: seq<char>, rest: seq<char>, max: nat)
    requires '\n' !in s && |s| < max
    ensures LineLength(s + "\n" + rest, max) == |s| + 1
  {
    if s != [] {
      assert (s + "\n" + rest)[1..] == s[1..] + "\n" + rest;
      LineOf(s[1..], rest, max - 1);
    }
  }

  /** The characters of a line do not include a newline before its end. */
  lemma {:induction false} LineShort(s: seq<char>, rest: seq<char>, max: nat)
    requires '\n' in s || |s| >= max
    ensures LineLength(s + "\n" + rest, max) <= |s|
  {
    var t := s + "\n" + rest;
    var n := LineLength(t, max);
    if '\n' in s {
      var k :| 0 <= k < |s| && s[k] == '\n';
      assert t[k] == '\n';
    }
  }

  /** A message comes back, with one newline more, exactly when it is clean. */
  lemma RoundTripIff(m: Message, rest: seq<char>)
    ensures var stream := Encode(m) + rest;
      Clean(m) <==> ReceiveLength(stream) == |Encode(m)| && Received(stream) == Delivered(m)
  {
    var stream, body := Encode(m) + rest, m.tag + ":" + m.data;
    assert stream == body + "\n" + rest;
    if Clean(m) {
      CleanBody(m);
      LineOf(body, rest, MAXLINE - 1);
      assert stream[..|body| + 1] == Encode(m);
      CStringCut(Encode(m));
      DecodeEncoded(m);
    }
    if ReceiveLength(stream) == |Encode(m)| && Received(stream) == Delivered(m) {
      assert stream[..|body| + 1] == Encode(m);
      ReceivedOnlyIfClean(m, rest);
    }
  }

  lemma CleanBody(m: Message)
    requires Clean(m)
    ensures '\n' !in m.tag + ":" + m.data && '\0' !in Encode(m)
  {
  }

  lemma ReceivedOnlyIfClean(m: Message, rest: seq<char>)
    requires LineLength(m.tag + ":" + m.data + "\n" + rest, MAXLINE - 1) == |Encode(m)|
    requires BufferToMessage(CString(Encode(m))) == Delivered(m)
    ensures Clean(m)
  {
    var body, str := m.tag + ":" + m.data, CString(Encode(m));
    LineTooLong(body, rest);
    CStringCut(Encode(m));
    DataWithin(str);
    assert '\n' in Delivered(m).data by {
      assert Delivered(m).data[|m.data|] == '\n';
    }
    assert '\n' in str;
    PrefixWithLast(str, body);
    assert str == Encode(m);
    DecodedTag(str);
    InEncoded(m);
  }

  lemma PrefixWithLast(str: string, body: string)
    requires str <= body + "\n" && '\n' in str && '\n' !in body
    ensures str == body + "\n"
  {
    var k :| 0 <= k < |str| && str[k] == '\n';
    assert k == |body|;
  }

  lemma LineTooLong(body: seq<char>, rest: seq<char>)
    requires LineLength(body + "\n" + rest, MAXLINE - 1) == |body| + 1
    ensures '\n' !in body && |body| + 1 <= MAXLINE - 1
  {
    if '\n' in body || |body| >= MAXLINE - 1 {
      LineShort(body, rest, MAXLINE - 1);
    }
  }

  lemma InEncoded(m: Message)
    ensures forall c :: c in m.tag || c in m.data ==> c in m.tag + ":" + m.data && c in Encode(m)
  {
  }

  /** Decoding makes no characters up. */
  lemma DataWithin(str: string)
    ensures forall c :: c in BufferToMessage(str).data ==> c in str
  {
  }

  lemma DecodedTag(str: string)
    ensures ':' !in BufferToMessage(str).tag
  {
  }

  lemma DecodeEncoded(m: Message)
    requires ':' !in m.tag
    ensures BufferToMessage(Encode(m)) == Delivered(m)
  {
    assert Encode(m) == m.tag + [':'] + (m.data + "\n");
    FindAfter(m.tag, m.data + "\n", ':');
    assert Encode(m)[..|m.tag|] == m.tag && Encode(m)[|m.tag| + 1..] == m.data + "\n";
  }

  lemma FindAfter(a: string, b: string, c: char)
    requires c !in a
    ensures FindChar(a + [c] + b, c, 0) == |a|
  {
    var s := a + [c] + b;
    assert s[|a|] == c;
    assert forall i :: 0 <= i < |a| ==> s[i] == a[i];
  }

  lemma ReceiveFirst(m: Message, after: seq<char>, n: nat)
    requires Clean(m)
    ensures ReceiveAll(Encode(m) + after, n + 1) == [Delivered(m)] + ReceiveAll(after, n)
  {
    RoundTripIff(m, after);
    assert (Encode(m) + after)[|Encode(m)|..] == after;
  }

  lemma Reassociate(a: string, b: string, c: string)
    ensures (a + b) + c == a + (b + c)
  {
  }

  lemma ReceiveCons(m: Message, ms: seq<Message>, rest: seq<char>)
    requires Clean(m)
    ensures ReceiveAll(EncodeAll([m] + ms) + rest, |ms| + 1) == [Delivered(m)] + ReceiveAll(EncodeAll(ms) + rest, |ms|)
  {
    assert ([m] + ms)[1..] == ms;
    Reassociate(Encode(m), EncodeAll(ms), rest);
    ReceiveFirst(m, EncodeAll(ms) + rest, |ms|);
  }

  /** A whole sequence of clean messages is received as it was sent, then the rest of the stream. */
  lemma {:induction false} StreamRoundTrip(ms: seq<Message>, rest: seq<char>)
    requires forall i :: 0 <= i < |ms| ==> Clean(ms[i])
    ensures var received := ReceiveAll(EncodeAll(ms) + rest, |ms|);
      |received| == |ms| && forall i :: 0 <= i < |ms| ==> received[i] == Delivered(ms[i])
  {
    if ms != [] {
      StreamRoundTrip(ms[1..], rest);
      ReceiveCons(ms[0], ms[1..], rest);
      assert ms == [ms[0]] + ms[1..];
    }
  }

  /** A C string ends at the first NUL. */
  lemma {:induction false} CStringIs(a: seq<char>, b: seq<char>)
    requires '\0' !in a
    ensures CString(a + ['\0'] + b) == a
  {
    if a != [] {
      assert (a + ['\0'] + b)[1..] == a[1..] + ['\0'] + b;
      CStringIs(a[1..], b);
    }
  }

  /** A line without a colon becomes the tag, newline and all, and the data is the line without it. */
  lemma ColonlessReceived(s: string, rest: seq<char>)
    requires ':' !in s && '\n' !in s && '\0' !in s && |s| + 1 <= 8191
    ensures Received(s + "\n" + rest) == Message(s + "\n", s)
  {
    var line := s + "\n";
    LineOf(s, rest, MAXLINE - 1);
    assert (line + rest)[..|s| + 1] == line;
    CStringCut(line);
    assert line[..|s|] == s && ':' !in line;
  }

  // ----- broadcast and delivery

  /** Erases the first newline. */
  function Strip(s: string): string {
    var k := FindChar(s, '\n', 0);
    if k < 0 then s else s[..k] + s[k + 1..]
  }

  /** What broadcast_message enqueues for every other user. */
  function Broadcast(roomName: string, sender: string, text: string): Message {
    Message(TAG_DELIVERY, Strip(roomName) + ":" + Strip(sender) + ":" + Strip(text))
  }

  function AfterColon(s: string): string {
    s[FindChar(s, ':', 0) + 1..]
  }

  /** What the receiver makes of the text behind the second colon. */
  function ShownText(user: string, line: string): Message {
    var rest := AfterColon(AfterColon(line));
    Message(user + rest[..FindChar(rest, ':', 0) + 1], AfterColon(rest))
  }

  /** How the receiver rewrites a delivery whose first two colons it found there (-1: nowhere). */
  function ShownAt(data: string, first: int, second: int): Message
    requires -1 <= first < |data| && -1 <= second < |data|
  {
    ShownText(Substr(data, first + 1, second - first - 1), data[second + 1..])
  }

  function Shown(data: string): Message {
    var first := FindChar(data, ':', 0);
    ShownAt(data, first, FindChar(data, ':', first + 1))
  }

  /** printf("%s: %s") */
  function Print(m: Message): string {
    m.tag + ": " + m.data
  }

  lemma StripLast(s: string)
    requires '\n' !in s
    ensures Strip(s + "\n") == s
  {
    FindAfter(s, "", '\n');
    assert s + "\n" + "" == s + "\n";
    assert (s + "\n")[..|s|] + (s + "\n")[|s| + 1..] == s;
  }

  /** Only the first newline goes. */
  lemma StripFirst(a: string, b: string)
    requires '\n' !in a
    ensures Strip(a) == a && Strip(a + "\n" + b) == a + b
  {
    FindAfter(a, b, '\n');
    assert (a + "\n" + b)[..|a|] == a && (a + "\n" + b)[|a| + 1..] == b;
  }

  /** Finding past a prefix is finding in the rest. */
  lemma FindBehind(a: string, b: string, c: char)
    ensures var k := FindChar(b, c, 0); FindChar(a + b, c, |a|) == if k < 0 then -1 else |a| + k
  {
    var s := a + b;
    assert forall i :: 0 <= i < |b| ==> s[|a| + i] == b[i];
    assert forall i :: |a| <= i < |s| ==> s[i] == b[i - |a|];
  }

  /** Deliveries that the server never sends: without a colon the text shows twice, with one its end does. */
  lemma ShownColonless(a: string, b: string)
    requires ':' !in a && ':' !in b
    ensures Shown(a) == Message(a, a) && Shown(a + ":" + b) == Message(b, b)
  {
    FindAfter(a, b, ':');
    assert FindChar(a + ":" + b, ':', |a| + 1) == -1;
    assert (a + ":" + b)[|a| + 1..] == b && b + [] == b && a + [] == a;
  }

  lemma DeliveryColons(room: string, user: string, line: string, behind: string, front: string, data: string)
    requires ':' !in room && ':' !in user
    requires behind == user + [':'] + line && front == room + [':'] && data == front + behind
    ensures FindChar(data, ':', 0) == |room| && FindChar(data, ':', |room| + 1) == |room| + 1 + |user|
  {
    FindAfter(room, behind, ':');
    FindAfter(user, line, ':');
    FindBehind(front, behind, ':');
  }

  lemma SubstrBetween(data: string, first: nat, second: nat)
    requires first < second < |data|
    ensures Substr(data, first + 1, second - first - 1) == data[first + 1..second]
  {
  }

  lemma ShownParts(data: string, first: nat, second: nat, user: string, line: string)
    requires first < second < |data|
    requires data[first + 1..second] == user && data[second + 1..] == line
    ensures ShownAt(data, first, second) == ShownText(user, line)
  {
    SubstrBetween(data, first, second);
  }

  lemma ShownDelivery(room: string, user: string, line: string)
    requires ':' !in room && ':' !in user
    ensures Shown(room + ":" + user + ":" + line) == ShownText(user, line)
  {
    var front, behind := room + [':'], user + [':'] + line;
    var data := front + behind;
    DeliveryColons(room, user, line, behind, front, data);
    DeliveryParts(front, user, line, data);
    ShownParts(data, |room|, |room| + 1 + |user|, user, line);
    JoinedDelivery(front, user, line, data);
  }

  lemma DeliveryParts(front: string, user: string, line: string, data: string)
    requires data == front + (user + [':'] + line)
    ensures data[|front|..|front| + |user|] == user && data[|front| + |user| + 1..] == line
  {
  }

  lemma JoinedDelivery(front: string, user: string, line: string, data: string)
    requires data == front + (user + [':'] + line)
    ensures front + user + ":" + line == data
  {
  }

  /** Without colons in room, name and text, the receiver prints the text whole. */
  lemma PrintedWhole(room: string, user: string, text: string)
    requires ':' !in room && ':' !in user && ':' !in text
    ensures Print(Shown(room + ":" + user + ":" + text + "\n")) == user + ": " + text + "\n"
  {
    LineAtEnd(room, user, text);
    NoColonInLine(text);
    PrintedLine(room, user, text + "\n", room + ":" + user + ":" + text + "\n", user + ": " + text + "\n");
  }

  lemma NoColonInLine(text: string)
    requires ':' !in text
    ensures ':' !in text + "\n"
  {
  }

  lemma PrintedLine(room: string, user: string, line: string, data: string, printed: string)
    requires ':' !in room && ':' !in user && ':' !in line
    requires data == room + ":" + user + ":" + line && printed == user + ": " + line
    ensures Print(Shown(data)) == printed
  {
    ShownDelivery(room, user, line);
    ShownWhole(user, line);
  }

  lemma LineAtEnd(room: string, user: string, text: string)
    ensures room + ":" + user + ":" + (text + "\n") == room + ":" + user + ":" + text + "\n"
    ensures user + ": " + (text + "\n") == user + ": " + text + "\n"
  {
  }

  lemma ShownWhole(user: string, line: string)
    requires ':' !in line
    ensures Print(ShownText(user, line)) == user + ": " + line
  {
    assert user + [] == user;
  }

  /** A name or text that means nothing to the framing. */
  predicate PlainText(s: string) {
    ':' !in s && '\n' !in s && '\0' !in s
  }

  lemma PlainClean(tag: string, s: string)
    requires PlainText(tag) && PlainText(s) && |tag| + |s| + 2 <= 8191
    ensures Clean(Message(tag, s))
  {
  }

  lemma PlainBroadcastClean(room: string, user: string, text: string)
    requires PlainText(room) && PlainText(user) && PlainText(text) && |room| + |user| + |text| + 12 <= 8191
    ensures Clean(Broadcast(room + "\n", user + "\n", text + "\n"))
  {
    StripLast(room);
    StripLast(user);
    StripLast(text);
    ColonsClean(room, user, text);
  }

  lemma ColonsClean(room: string, user: string, text: string)
    requires PlainText(room) && PlainText(user) && PlainText(text) && |room| + |user| + |text| + 12 <= 8191
    ensures Clean(Message(TAG_DELIVERY, room + ":" + user + ":" + text))
  {
  }

  /** What a sender's message, as receive hands it on, arrives as. */
  lemma SenderArrives(tag: string, s: string, rest: seq<char>)
    requires PlainText(tag) && PlainText(s) && |tag| + |s| + 2 <= 8191
    ensures Received(Encode(Message(tag, s)) + rest) == Message(tag, s + "\n")
  {
    PlainClean(tag, s);
    RoundTripIff(Message(tag, s), rest);
  }

  /**
   * From the sender's terminal to the receiver's: the server receives user, room and text,
   * broadcasts what it received, and the receiver prints "user: text".
   */
  lemma EndToEnd(room: string, user: string, text: string, rest: seq<char>)
    requires PlainText(room) && PlainText(user) && PlainText(text) && |room| + |user| + |text| + 12 <= 8191
    ensures
      var login, join, post := Received(Encode(Message("slogin", user)) + rest),
                               Received(Encode(Message("join", room)) + rest),
                               Received(Encode(Message("sendall", text)) + rest);
      var m := Received(Encode(Broadcast(join.data, login.data, post.data)) + rest);
      && login.tag == "slogin" && join.tag == "join" && post.tag == "sendall"
      && m.tag == TAG_DELIVERY && Print(Shown(m.data)) == user + ": " + text + "\n"
  {
    SenderArrives("slogin", user, rest);
    SenderArrives("join", room, rest);
    SenderArrives("sendall", text, rest);
    DeliveryArrives(room, user, text, rest);
  }

  lemma DeliveryArrives(room: string, user: string, text: string, rest: seq<char>)
    requires PlainText(room) && PlainText(user) && PlainText(text) && |room| + |user| + |text| + 12 <= 8191
    ensures var m := Received(Encode(Broadcast(room + "\n", user + "\n", text + "\n")) + rest);
      m.tag == TAG_DELIVERY && Print(Shown(m.data)) == user + ": " + text + "\n"
  {
    PlainBroadcastClean(room, user, text);
    RoundTripIff(Broadcast(room + "\n", user + "\n", text + "\n"), rest);
    StripLast(room);
    StripLast(user);
    StripLast(text);
    PrintedWhole(room, user, text);
  }
}
