/** What the receiver makes of a delivery whose room, user and text may hold colons. */
module Decoding {
  import opened Messages

  // ----- strings between colons

  /** The parts of a string between its colons. */
  function Parts(s: string): (p: seq<string>)
    ensures |p| >= 1
  {
    if s == "" then [""]
    else
      var rest := Parts(s[1..]);
      if s[0] == ':' then [""] + rest else [[s[0]] + rest[0]] + rest[1..]
  }

  function Joined(p: seq<string>): string
    requires |p| >= 1
  {
    if |p| == 1 then p[0] else p[0] + (":" + Joined(p[1..]))
  }

  lemma {:induction false} JoinedParts(s: string)
    ensures Joined(Parts(s)) == s
  {
    if s != "" {
      JoinedParts(s[1..]);
      var rest := Parts(s[1..]);
      if s[0] == ':' {
        assert ([""] + rest)[1..] == rest;
      } else if |rest| > 1 {
        assert ([[s[0]] + rest[0]] + rest[1..])[1..] == rest[1..];
      }
    }
  }

  /** A string is determined by its parts. */
  lemma PartsDetermine(s: string, t: string)
    requires Parts(s) == Parts(t)
    ensures s == t
  {
    JoinedParts(s);
    JoinedParts(t);
  }

  lemma {:induction false} NoColonPart(s: string)
    requires ':' !in s
    ensures Parts(s) == [s]
  {
    if s != "" {
      NoColonPart(s[1..]);
      assert [s[0]] + s[1..] == s && [s[1..]][1..] == [];
    }
  }

  lemma {:induction false} PartsOfJoin(a: string, b: string)
    ensures Parts(a + (":" + b)) == Parts(a) + Parts(b)
  {
    var s := a + (":" + b);
    if a == "" {
      assert s == ":" + b && s[1..] == b;
    } else {
      assert s[1..] == a[1..] + (":" + b);
      PartsOfJoin(a[1..], b);
    }
  }

  lemma {:induction false} PartsFree(s: string, i: nat)
    requires i < |Parts(s)|
    ensures ':' !in Parts(s)[i]
  {
    if s != "" {
      var rest := Parts(s[1..]);
      PartsFree(s[1..], if s[0] == ':' && i > 0 then i - 1 else if s[0] == ':' then 0 else i);
    }
  }

  /** Cutting a string at its first colon. */
  lemma CutParts(s: string)
    ensures |Parts(s)| == 1 <==> ':' !in s
    ensures ':' in s ==> Parts(s) == [s[..FindChar(s, ':', 0)]] + Parts(AfterColon(s))
    ensures ':' in s ==> Parts(AfterColon(s)) == Parts(s)[1..]
    ensures ':' !in s ==> Parts(s) == [s]
  {
    if ':' in s {
      var k := FindChar(s, ':', 0);
      assert s == s[..k] + (":" + AfterColon(s));
      NoColonPart(s[..k]);
      PartsOfJoin(s[..k], AfterColon(s));
    } else {
      NoColonPart(s);
    }
  }

  // ----- the receiver's rewriting, part by part

  /** What it prints for a delivery with these parts. */
  function OutParts(p: seq<string>): seq<string>
    requires |p| >= 3
  {
    if |p| <= 5 then [p[1], " " + p[|p| - 1]]
    else [p[1] + p[4], "", " " + p[5]] + p[6..]
  }

  /** The parts behind the second colon, less the two that it drops. */
  function Kept(p: seq<string>): (q: seq<string>)
    requires |p| >= 1
    ensures |q| >= 1
  {
    if |p| <= 3 then [p[|p| - 1]] else p[2..]
  }

  /** The parts behind the first colon, if there is one. */
  function Behind(p: seq<string>): (q: seq<string>)
    requires |p| >= 1
    ensures |q| >= 1
  {
    if |p| == 1 then p else p[1..]
  }

  lemma BehindParts(s: string)
    ensures Parts(AfterColon(s)) == Behind(Parts(s))
  {
    CutParts(s);
  }

  lemma KeptParts(line: string)
    ensures Parts(AfterColon(AfterColon(line))) == Kept(Parts(line))
  {
    BehindParts(line);
    BehindParts(AfterColon(line));
    KeptIsBehind(Parts(line));
  }

  lemma KeptIsBehind(p: seq<string>)
    requires |p| >= 1
    ensures Behind(Behind(p)) == Kept(p)
  {
  }

  lemma SpacedParts(s: string)
    ensures Parts(" " + s) == [" " + Parts(s)[0]] + Parts(s)[1..]
  {
    assert (" " + s)[1..] == s;
  }

  lemma TextParts(user: string, line: string)
    requires ':' !in user
    ensures var q := Kept(Parts(line));
      Parts(Print(ShownText(user, line))) ==
      if |q| == 1 then [user, " " + q[0]] else [user + q[0], "", " " + q[1]] + q[2..]
  {
    KeptParts(line);
    PrintParts(user, AfterColon(AfterColon(line)));
  }

  lemma PrintParts(user: string, rest: string)
    requires ':' !in user
    ensures var q := Parts(rest);
      Parts(Print(Message(user + rest[..FindChar(rest, ':', 0) + 1], AfterColon(rest)))) ==
      if |q| == 1 then [user, " " + q[0]] else [user + q[0], "", " " + q[1]] + q[2..]
  {
    CutParts(rest);
    if ':' in rest {
      var head := rest[..FindChar(rest, ':', 0)];
      assert rest[..FindChar(rest, ':', 0) + 1] == head + ":";
      LongParts(user, head, AfterColon(rest));
    } else {
      ShortParts(user, rest);
    }
  }

  lemma ShortParts(user: string, rest: string)
    requires ':' !in user && ':' !in rest
    ensures Parts(user + [] + ": " + rest) == [user, " " + rest]
  {
    assert user + [] + ": " + rest == user + (":" + (" " + rest));
    NoColonPart(user);
    NoColonPart(" " + rest);
    PartsOfJoin(user, " " + rest);
  }

  lemma LongParts(user: string, head: string, data: string)
    requires ':' !in user && ':' !in head
    ensures Parts(user + (head + ":") + ": " + data) == [user + head, "", " " + Parts(data)[0]] + Parts(data)[1..]
  {
    assert user + (head + ":") + ": " + data == (user + head) + (":" + ("" + (":" + (" " + data))));
    NoColonPart(user + head);
    NoColonPart("");
    SpacedParts(data);
    PartsOfJoin("", " " + data);
    PartsOfJoin(user + head, "" + (":" + (" " + data)));
  }

  lemma CutOnce(s: string)
    requires ':' in s
    ensures s == s[..FindChar(s, ':', 0)] + ":" + AfterColon(s)
  {
  }

  lemma Grouped(a: string, b: string, c: string)
    ensures a + ":" + (b + ":" + c) == a + ":" + b + ":" + c
  {
  }

  /** The receiver finds the first two colons. */
  lemma ShownOf(data: string, behind: string, room: string, user: string)
    requires ':' in data && behind == AfterColon(data) && room == data[..FindChar(data, ':', 0)]
    requires ':' in behind && user == behind[..FindChar(behind, ':', 0)]
    ensures Shown(data) == ShownText(user, AfterColon(behind))
  {
    CutOnce(data);
    CutOnce(behind);
    Grouped(room, user, AfterColon(behind));
    ShownDelivery(room, user, AfterColon(behind));
  }

  lemma OutOfKept(room: string, user: string, l: seq<string>)
    requires |l| >= 1
    ensures var q := Kept(l);
      OutParts([room, user] + l) == if |q| == 1 then [user, " " + q[0]] else [user + q[0], "", " " + q[1]] + q[2..]
  {
    var p := [room, user] + l;
    assert p[|p| - 1] == l[|l| - 1];
    if |p| > 5 {
      assert p[6..] == l[4..] == l[2..][2..];
    }
  }

  lemma TextOut(room: string, user: string, line: string)
    requires ':' !in user
    ensures Parts(Print(ShownText(user, line))) == OutParts([room, user] + Parts(line))
  {
    TextParts(user, line);
    OutOfKept(room, user, Parts(line));
  }

  lemma TwoParts(data: string, behind: string, room: string, user: string)
    requires ':' in data && behind == AfterColon(data) && room == data[..FindChar(data, ':', 0)]
    requires ':' in behind && user == behind[..FindChar(behind, ':', 0)]
    ensures ':' !in user && Parts(data) == [room, user] + Parts(AfterColon(behind))
  {
    CutParts(data);
    CutParts(behind);
  }

  lemma PrintedParts(data: string)
    requires |Parts(data)| >= 3
    ensures Parts(Print(Shown(data))) == OutParts(Parts(data))
  {
    var behind := AfterColon(data);
    CutParts(data);
    CutParts(behind);
    var room, user := data[..FindChar(data, ':', 0)], behind[..FindChar(behind, ':', 0)];
    TwoParts(data, behind, room, user);
    ShownOf(data, behind, room, user);
    TextOut(room, user, AfterColon(behind));
  }

  // ----- when the whole text is shown

  /**
   * No colons in the text or the name, and in the room's name either none, or one or two with
   * the user's name behind the first; or two, and the user's name is that with a colon behind it.
   */
  predicate ShownRight(room: seq<string>, user: seq<string>, text: seq<string>)
    requires |room| >= 1 && |user| >= 1
  {
    || (|user| == 1 && |text| == 1 && (|room| == 1 || (|room| <= 3 && room[1] == user[0])))
    || (|room| == 3 && user == [room[1], ""])
  }

  /** The parts of "user: text". */
  function Expected(user: seq<string>, line: seq<string>): seq<string>
    requires |line| >= 1
  {
    user + ([" " + line[0]] + line[1..])
  }

  lemma PartsRight(room: seq<string>, user: seq<string>, line: seq<string>)
    requires |room| >= 1 && |user| >= 1 && |line| >= 1
    ensures OutParts(room + user + line) == Expected(user, line) <==> ShownRight(room, user, line)
  {
    if |room| + |user| + |line| <= 5 {
      ShortRight(room, user, line);
    } else {
      LongRight(room, user, line);
    }
  }

  lemma ShortRight(room: seq<string>, user: seq<string>, line: seq<string>)
    requires |room| >= 1 && |user| >= 1 && |line| >= 1 && |room| + |user| + |line| <= 5
    ensures OutParts(room + user + line) == Expected(user, line) <==> ShownRight(room, user, line)
  {
    var p, e := room + user + line, Expected(user, line);
    var out := OutParts(p);
    if |user| == 1 && |line| == 1 {
      assert e == [user[0], " " + line[0]];
      assert p[|p| - 1] == line[0] && p[1] == if |room| == 1 then user[0] else room[1];
      assert out == [p[1], " " + line[0]];
      assert out == e <==> out[0] == e[0];
    } else {
      assert |out| == 2 && |e| == |user| + |line|;
    }
  }

  lemma LongRight(room: seq<string>, user: seq<string>, line: seq<string>)
    requires |room| >= 1 && |user| >= 1 && |line| >= 1 && |room| + |user| + |line| > 5
    ensures OutParts(room + user + line) == Expected(user, line) <==> ShownRight(room, user, line)
  {
    var p, e := room + user + line, Expected(user, line);
    var out := OutParts(p);
    if |room| != 3 {
      assert |out| == |p| - 3 && |e| == |user| + |line|;
    } else if |user| == 1 {
      assert e[1][0] == ' ' && out[1] == "";
    } else if |user| == 2 {
      assert out == [room[1] + user[1], "", " " + line[0]] + line[1..];
      assert e == [user[0], user[1], " " + line[0]] + line[1..] && user == [user[0], user[1]];
      assert room[1] + "" == room[1];
      assert out == e ==> out[0] == e[0] && out[1] == e[1];
    } else {
      assert out[2] == " " + user[2] && e[2] == user[2];
      assert |out[2]| != |e[2]|;
    }
  }

  /** The receiver prints "user: text" exactly when the parts of room, user and text say so. */
  lemma PrintedIff(room: string, user: string, text: string)
    ensures Print(Shown(room + ":" + user + ":" + text + "\n")) == user + ": " + text + "\n"
      <==> ShownRight(Parts(room), Parts(user), Parts(text))
  {
    var line := text + "\n";
    LineAtEnd(room, user, text);
    DataParts(room, user, line);
    PrintedParts(room + ":" + user + ":" + line);
    ExpectedParts(user, line);
    PartsRight(Parts(room), Parts(user), Parts(line));
    LineParts(text);
    var printed, expected := Print(Shown(room + ":" + user + ":" + line)), user + ": " + line;
    if Parts(printed) == Parts(expected) {
      PartsDetermine(printed, expected);
    }
  }

  lemma DataParts(room: string, user: string, line: string)
    ensures Parts(room + ":" + user + ":" + line) == Parts(room) + Parts(user) + Parts(line)
  {
    assert room + ":" + user + ":" + line == room + (":" + (user + (":" + line)));
    PartsOfJoin(user, line);
    PartsOfJoin(room, user + (":" + line));
  }

  lemma ExpectedParts(user: string, line: string)
    ensures Parts(user + ": " + line) == Expected(Parts(user), Parts(line))
  {
    assert user + ": " + line == user + (":" + (" " + line));
    SpacedParts(line);
    PartsOfJoin(user, " " + line);
  }

  lemma {:induction false} LineParts(text: string)
    ensures |Parts(text + "\n")| == |Parts(text)|
  {
    if text == "" {
      NoColonPart("\n");
    } else {
      assert (text + "\n")[1..] == text[1..] + "\n";
      LineParts(text[1..]);
    }
  }

  // ----- what a message holds

  /** On the wire the tag comes first, then the data, then a newline. */
  lemma EncodedParts(m: Message)
    ensures Parts(Encode(m)) == Parts(m.tag) + Parts(m.data + "\n")
  {
    assert Encode(m) == m.tag + (":" + (m.data + "\n"));
    PartsOfJoin(m.tag, m.data + "\n");
  }

  /** A broadcast names the room, the sender and the text, in this order, each without its first newline. */
  lemma BroadcastParts(room: string, user: string, text: string)
    requires PlainText(room) && PlainText(user) && PlainText(text)
    ensures var m := Broadcast(room + "\n", user + "\n", text + "\n");
      m.tag == "delivery" && m.data == room + ":" + user + ":" + text && Parts(m.data) == [room, user, text]
  {
    StripLast(room);
    StripLast(user);
    StripLast(text);
    PlainParts(room, user, text);
  }

  /** So does the message that the receiver gets off the wire, with the newline at its end. */
  lemma DeliveryParts(room: string, user: string, text: string, rest: seq<char>)
    requires PlainText(room) && PlainText(user) && PlainText(text) && |room| + |user| + |text| + 12 <= 8191
    ensures var m := Received(Encode(Broadcast(room + "\n", user + "\n", text + "\n")) + rest);
      m.tag == "delivery" && Parts(m.data) == [room, user, text + "\n"]
  {
    BroadcastParts(room, user, text);
    PlainBroadcastClean(room, user, text);
    RoundTripIff(Broadcast(room + "\n", user + "\n", text + "\n"), rest);
    LineOfParts(room, user, text);
  }

  lemma LineOfParts(room: string, user: string, text: string)
    requires PlainText(room) && PlainText(user) && PlainText(text)
    ensures Parts(room + ":" + user + ":" + text + "\n") == [room, user, text + "\n"]
  {
    LineAtEnd(room, user, text);
    NoColonInLine(text);
    PlainParts(room, user, text + "\n");
  }

  lemma PlainParts(room: string, user: string, line: string)
    requires ':' !in room && ':' !in user && ':' !in line
    ensures Parts(room + ":" + user + ":" + line) == [room, user, line]
  {
    DataParts(room, user, line);
    NoColonPart(room);
    NoColonPart(user);
    NoColonPart(line);
  }
}
