/** Robust reads and writes over a descriptor that splits and interrupts its transfers at will. */
module Rio {
  import opened Sequences

  /**
   * What the kernel does with one read or write; an empty script transfers all it can. A write
   * that returns 0 is judged by errno, like one that returns -1: it is an interrupt or a failure.
   */
  datatype Event = Interrupt | Failure | Transfer(extra: nat)  // at most extra + 1 bytes

  ghost predicate NoFailure(script: seq<Event>) {
    forall i :: 0 <= i < |script| ==> script[i] != Failure
  }

  predicate IsSuffix<T(==)>(rest: seq<T>, s: seq<T>) {
    |rest| <= |s| && rest == s[|s| - |rest|..]
  }

  /** From script `before` to what is left of it in `after`, the kernel reported a failure. */
  predicate Failed(before: seq<Event>, after: seq<Event>) {
    |after| <= |before| && Failure in before[..|before| - |after|]
  }

  /** `after` is what is left of `before`, and it failed or not as `failed` says. */
  predicate Used(before: seq<Event>, after: seq<Event>, failed: bool) {
    IsSuffix(after, before) && (Failed(before, after) <==> failed)
  }

  lemma UsedOne(before: seq<Event>, now: seq<Event>, after: seq<Event>)
    requires Used(before, now, false) && after == if now == [] then [] else now[1..]
    ensures Used(before, after, now != [] && now[0] == Failure)
  {
    var n := |before| - |now|;
    if now != [] {
      assert before[..n + 1] == before[..n] + [now[0]];
    }
  }

  lemma UsedOn(before: seq<Event>, now: seq<Event>, after: seq<Event>, failed: bool)
    requires Used(before, now, false) && Used(now, after, failed)
    ensures Used(before, after, failed)
  {
    var n, m := |before| - |now|, |now| - |after|;
    assert before[..n + m] == before[..n] + now[..m];
  }

  function Min(x: nat, y: nat): nat {
    if x < y then x else y
  }

  /** A descriptor open for reading: the stream still to come, cut up by the script. */
  class InFd {
    var pending: seq<char>
    var script: seq<Event>

    constructor (stream: seq<char>, events: seq<Event>)
      ensures pending == stream && script == events
    {
      pending, script := stream, events;
    }

    method Read(buf: array<char>, at: nat, n: nat) returns (rc: int, interrupted: bool)
      requires n > 0 && at + n <= buf.Length
      modifies this, buf
      ensures script == if old(script) == [] then [] else old(script)[1..]
      ensures rc < 0 ==> rc == -1 && old(script) != [] && pending == old(pending) && buf[..] == old(buf[..])
      ensures rc < 0 ==> old(script)[0] == if interrupted then Interrupt else Failure
      ensures rc >= 0 ==> rc <= n && rc <= |old(pending)| && (rc == 0 <==> old(pending) == [])
      ensures rc >= 0 ==> buf[at..at + rc] == old(pending)[..rc] && pending == old(pending)[rc..]
      ensures rc >= 0 ==> SameOutside(buf[..], old(buf[..]), at, at + rc)
      ensures rc >= 0 && old(script) != [] ==> old(script)[0].Transfer?
    {
      var limit := n;
      interrupted := false;
      if script != [] {
        var e := script[0];
        script := script[1..];
        if e == Interrupt || e == Failure {
          return -1, e == Interrupt;
        }
        limit := Min(n, e.extra + 1);
      }
      var count := Min(limit, |pending|);
      forall i | 0 <= i < count {
        buf[at + i] := pending[i];
      }
      pending := pending[count..];
      rc := count;
    }
  }

  /** A descriptor open for writing. */
  class OutFd {
    var written: seq<char>
    var script: seq<Event>

    constructor (events: seq<Event>)
      ensures written == [] && script == events
    {
      written, script := [], events;
    }

    method Write(data: seq<char>) returns (rc: int, interrupted: bool)
      requires data != []
      modifies this
      ensures script == if old(script) == [] then [] else old(script)[1..]
      ensures rc < 0 ==> rc == -1 && old(script) != [] && written == old(written)
      ensures rc < 0 ==> old(script)[0] == if interrupted then Interrupt else Failure
      ensures rc >= 0 ==> 0 < rc <= |data| && written == old(written) + data[..rc]
      ensures rc >= 0 && old(script) != [] ==> old(script)[0].Transfer?
    {
      var limit := |data|;
      interrupted := false;
      if script != [] {
        var e := script[0];
        script := script[1..];
        if e == Interrupt || e == Failure {
          return -1, e == Interrupt;
        }
        limit := Min(limit, e.extra + 1);
      }
      written := written + data[..limit];
      rc := limit;
    }
  }

  /** rio_writen: short writes and interrupts go unnoticed. */
  method RioWriten(fd: OutFd, data: seq<char>) returns (rc: int)
    modifies fd
    ensures rc == |data| || rc == -1
    ensures rc >= 0 ==> fd.written == old(fd.written) + data
    ensures rc < 0 ==> exists k :: 0 <= k < |data| && fd.written == old(fd.written) + data[..k]
    ensures Used(old(fd.script), fd.script, rc == -1)
    ensures NoFailure(old(fd.script)) ==> rc >= 0 && NoFailure(fd.script)
  {
    var done := 0;
    while done < |data|
      invariant 0 <= done <= |data|
      invariant fd.written == old(fd.written) + data[..done]
      invariant Used(old(fd.script), fd.script, false)
      invariant NoFailure(old(fd.script)) ==> NoFailure(fd.script)
      decreases |data| - done + |fd.script|
    {
      ghost var script := fd.script;
      var n, interrupted := fd.Write(data[done..]);
      UsedOne(old(fd.script), script, fd.script);
      if n <= 0 {
        if !interrupted {
          assert data[..done] == data[..done] && done < |data|;
          return -1;
        }
        n := 0;
      }
      assert data[..done] + data[done..][..n] == data[..done + n];
      done := done + n;
    }
    return |data|;
  }

  /** rio_readn: unbuffered, straight from the descriptor. */
  method RioReadn(fd: InFd, usrbuf: array<char>, n: nat) returns (rc: int)
    requires n <= usrbuf.Length
    modifies fd, usrbuf
    ensures rc >= 0 ==> rc == Min(n, |old(fd.pending)|)
    ensures rc >= 0 ==> usrbuf[..rc] == old(fd.pending)[..rc] && fd.pending == old(fd.pending)[rc..]
    ensures -1 <= rc && Used(old(fd.script), fd.script, rc == -1)
    ensures SameOutside(usrbuf[..], old(usrbuf[..]), 0, if rc >= 0 then rc else n)
    ensures NoFailure(old(fd.script)) ==> rc >= 0 && NoFailure(fd.script)
  {
    ghost var stream := fd.pending;
    var got := 0;
    while got < n
      invariant 0 <= got <= n && got <= |stream|
      invariant usrbuf[..got] == stream[..got] && fd.pending == stream[got..]
      invariant SameOutside(usrbuf[..], old(usrbuf[..]), 0, got)
      invariant Used(old(fd.script), fd.script, false)
      invariant NoFailure(old(fd.script)) ==> NoFailure(fd.script)
      decreases n - got + |fd.script|
    {
      ghost var script := fd.script;
      var nread, interrupted := fd.Read(usrbuf, got, n - got);
      UsedOne(old(fd.script), script, fd.script);
      if nread < 0 {
        if !interrupted {
          return -1;
        }
        nread := 0;
      } else if nread == 0 {
        break;
      }
      Appended(usrbuf[..], stream, got, nread);
      got := got + nread;
    }
    return got;
  }

  lemma Appended(buf: seq<char>, stream: seq<char>, got: nat, more: nat)
    requires got + more <= |buf| && got + more <= |stream|
    requires buf[..got] == stream[..got] && buf[got..got + more] == stream[got..][..more]
    ensures buf[..got + more] == stream[..got + more] && stream[got..][more..] == stream[got + more..]
  {
    assert buf[..got + more] == buf[..got] + buf[got..got + more];
    assert stream[..got + more] == stream[..got] + stream[got..][..more];
  }

  // ----- the buffered reader

  const RIO_BUFSIZE: nat := 8192

  /** How many characters a line of at most `max` takes: up to and with the first newline. */
  function LineLength(s: seq<char>, max: nat): (n: nat)
    ensures n <= |s| && n <= max
    ensures forall i :: 0 <= i < n - 1 ==> s[i] != '\n'
    ensures n == |s| || n == max || (n > 0 && s[n - 1] == '\n')
  {
    if s == [] || max == 0 then 0
    else if s[0] == '\n' then 1
    else 1 + LineLength(s[1..], max - 1)
  }

  lemma EmptyLineIff(s: seq<char>, max: nat)
    ensures LineLength(s, max) == 0 <==> s == [] || max == 0
  {
  }

  class Reader {
    const fd: InFd
    const buf: array<char>
    var cnt: int
    var ptr: nat

    ghost predicate Valid()
      reads this
    {
      buf.Length == RIO_BUFSIZE && -1 <= cnt && ptr + (if cnt < 0 then 0 else cnt) <= buf.Length
    }

    /** What the caller has not been given yet: the rest of the buffer, then the stream. */
    ghost function Unread(): seq<char>
      requires Valid()
      reads this, fd, buf
    {
      (if cnt > 0 then buf[ptr..ptr + cnt] else []) + fd.pending
    }

    /** rio_readinitb */
    constructor (descriptor: InFd)
      ensures Valid() && fd == descriptor && fresh(buf) && Unread() == fd.pending
    {
      fd, buf := descriptor, new char[RIO_BUFSIZE];
      cnt, ptr := 0, 0;
    }

    /** The loop that refills an empty buffer; `rc` is what rio_read then returns, unless 1. */
    method Refill() returns (rc: int)
      requires Valid()
      modifies this, fd, buf
      ensures Valid() && Unread() == old(Unread()) && -1 <= rc <= 1
      ensures rc == 1 ==> cnt > 0
      ensures rc == 0 ==> Unread() == []
      ensures Used(old(fd.script), fd.script, rc == -1)
      ensures NoFailure(old(fd.script)) ==> rc >= 0 && NoFailure(fd.script)
    {
      while cnt <= 0
        invariant Valid() && Unread() == old(Unread())
        invariant Used(old(fd.script), fd.script, false)
        invariant NoFailure(old(fd.script)) ==> NoFailure(fd.script)
        decreases |fd.script|, if cnt <= 0 then 1 else 0
      {
        ghost var stream, script := fd.pending, fd.script;
        var interrupted;
        cnt, interrupted := fd.Read(buf, 0, RIO_BUFSIZE);
        UsedOne(old(fd.script), script, fd.script);
        if cnt < 0 {
          if !interrupted {
            return -1;
          }
        } else if cnt == 0 {
          return 0;
        } else {
          ptr := 0;
          assert buf[0..cnt] + fd.pending == stream;
        }
      }
      return 1;
    }

    /** memcpy of `count` buffered bytes. */
    method CopyOut(usrbuf: array<char>, at: nat, count: nat)
      requires Valid() && count <= cnt && at + count <= usrbuf.Length && usrbuf != buf
      modifies this, usrbuf
      ensures Valid()
      ensures count <= |old(Unread())| && Unread() == old(Unread())[count..]
      ensures usrbuf[at..at + count] == old(Unread())[..count]
      ensures SameOutside(usrbuf[..], old(usrbuf[..]), at, at + count)
    {
      ghost var before, taken, rest := Unread(), buf[ptr..ptr + count], buf[ptr + count..ptr + cnt];
      assert buf[ptr..ptr + cnt] == taken + rest;
      assert before == taken + (rest + fd.pending);
      forall i | 0 <= i < count {
        usrbuf[at + i] := buf[ptr + i];
      }
      assert usrbuf[at..at + count] == taken && buf[ptr + count..ptr + cnt] == rest;
      ptr, cnt := ptr + count, cnt - count;
      assert Unread() == rest + fd.pending;
      Taken(before, taken, Unread());
    }

    /** rio_read: the next bytes, at most `n`; 0 at the end of the stream. */
    method RioRead(usrbuf: array<char>, at: nat, n: nat) returns (rc: int)
      requires Valid() && n > 0 && at + n <= usrbuf.Length && usrbuf != buf
      modifies this, fd, buf, usrbuf
      ensures Valid() && -1 <= rc <= n
      ensures rc < 0 ==> Unread() == old(Unread()) && usrbuf[..] == old(usrbuf[..])
      ensures rc >= 0 ==> rc <= |old(Unread())| && (rc == 0 <==> old(Unread()) == [])
      ensures rc >= 0 ==> usrbuf[at..at + rc] == old(Unread())[..rc] && Unread() == old(Unread())[rc..]
      ensures rc >= 0 ==> SameOutside(usrbuf[..], old(usrbuf[..]), at, at + rc)
      ensures Used(old(fd.script), fd.script, rc == -1)
      ensures NoFailure(old(fd.script)) ==> rc >= 0 && NoFailure(fd.script)
    {
      rc := Refill();
      if rc < 1 {
        return;
      }
      rc := if cnt < n then cnt else n;
      CopyOut(usrbuf, at, rc);
    }

    /** rio_readnb: exactly `n` bytes, or all there are. */
    method RioReadnb(usrbuf: array<char>, n: nat) returns (rc: int)
      requires Valid() && n <= usrbuf.Length && usrbuf != buf
      modifies this, fd, buf, usrbuf
      ensures Valid()
      ensures rc >= 0 ==> rc == Min(n, |old(Unread())|)
      ensures rc >= 0 ==> usrbuf[..rc] == old(Unread())[..rc] && Unread() == old(Unread())[rc..]
      ensures -1 <= rc && Used(old(fd.script), fd.script, rc == -1)
      ensures SameOutside(usrbuf[..], old(usrbuf[..]), 0, if rc >= 0 then rc else n)
      ensures NoFailure(old(fd.script)) ==> rc >= 0 && NoFailure(fd.script)
    {
      ghost var stream := Unread();
      var got := 0;
      while got < n
        invariant Valid() && 0 <= got <= n && got <= |stream|
        invariant usrbuf[..got] == stream[..got] && Unread() == stream[got..]
        invariant SameOutside(usrbuf[..], old(usrbuf[..]), 0, got)
        invariant Used(old(fd.script), fd.script, false)
        invariant NoFailure(old(fd.script)) ==> NoFailure(fd.script)
        decreases n - got
      {
        ghost var script := fd.script;
        var nread := RioRead(usrbuf, got, n - got);
        UsedOn(old(fd.script), script, fd.script, nread == -1);
        if nread < 0 {
          return -1;
        } else if nread == 0 {
          break;
        }
        Appended(usrbuf[..], stream, got, nread);
        got := got + nread;
      }
      return got;
    }

    /** rio_read of a single character. */
    method ReadChar() returns (rc: int, c: char)
      requires Valid()
      modifies this, fd, buf
      ensures Valid() && -1 <= rc <= 1
      ensures rc < 0 ==> Unread() == old(Unread())
      ensures rc == 0 ==> old(Unread()) == [] == Unread()
      ensures rc == 1 ==> old(Unread()) == [c] + Unread()
      ensures Used(old(fd.script), fd.script, rc == -1)
      ensures NoFailure(old(fd.script)) ==> rc >= 0 && NoFailure(fd.script)
    {
      var one := new char[1];
      rc := RioRead(one, 0, 1);
      c := one[0];
      if rc == 1 {
        assert one[0..1] == old(Unread())[..1];
      }
    }

    /** *bufp = c */
    static method Store(usrbuf: array<char>, at: nat, c: char)
      requires at < usrbuf.Length
      modifies usrbuf
      ensures usrbuf[..at] == old(usrbuf[..at]) && usrbuf[at] == c
      ensures usrbuf[..at + 1] == old(usrbuf[..at]) + [c]
      ensures SameOutside(usrbuf[..], old(usrbuf[..]), at, at + 1)
    {
      usrbuf[at] := c;
    }

    /** rio_readlineb: a line of at most maxlen - 1 characters, closed with a NUL. */
    method RioReadlineb(usrbuf: array<char>, maxlen: nat) returns (rc: int)
      requires Valid() && 1 <= maxlen <= usrbuf.Length && usrbuf != buf
      modifies this, fd, buf, usrbuf
      ensures Valid()
      ensures rc >= 0 ==> rc == LineLength(old(Unread()), maxlen - 1)
      ensures rc >= 0 ==> usrbuf[..rc] == old(Unread())[..rc] && Unread() == old(Unread())[rc..]
      ensures rc > 0 || (rc == 0 && maxlen == 1) ==> usrbuf[rc] == '\0'
      ensures SameOutside(usrbuf[..], old(usrbuf[..]), 0, if rc >= 0 then rc + 1 else maxlen)
      ensures rc < 0 ==> IsSuffix(Unread(), old(Unread()))
      ensures -1 <= rc && Used(old(fd.script), fd.script, rc == -1)
      ensures NoFailure(old(fd.script)) ==> rc >= 0 && NoFailure(fd.script)
    {
      ghost var stream, taken := Unread(), [];
      rc, taken := FillLine(usrbuf, maxlen);
      Taken(stream, taken, Unread());
      if rc < 0 || (rc == 0 && maxlen > 1) {
        return;  // an error, or the end of the stream before any data
      }
      Store(usrbuf, rc, '\0');
    }

    /** The loop of rio_readlineb; `taken` is what it took off the stream. */
    method FillLine(usrbuf: array<char>, maxlen: nat) returns (rc: int, ghost taken: seq<char>)
      requires Valid() && 1 <= maxlen <= usrbuf.Length && usrbuf != buf
      modifies this, fd, buf, usrbuf
      ensures Valid() && rc < maxlen && old(Unread()) == taken + Unread()
      ensures rc >= 0 ==> usrbuf[..rc] == taken && LineLength(old(Unread()), maxlen - 1) == rc
      ensures SameOutside(usrbuf[..], old(usrbuf[..]), 0, if rc >= 0 then rc else maxlen)
      ensures -1 <= rc && Used(old(fd.script), fd.script, rc == -1)
      ensures NoFailure(old(fd.script)) ==> rc >= 0 && NoFailure(fd.script)
    {
      taken := [];
      ghost var stream := Unread();
      var n := 1;
      while n < maxlen
        invariant Valid() && 1 <= n <= maxlen && |taken| == n - 1
        invariant usrbuf[..n - 1] == taken && NoNewline(taken)
        invariant SameOutside(usrbuf[..], old(usrbuf[..]), 0, n - 1)
        invariant stream == taken + Unread()
        invariant Used(old(fd.script), fd.script, false)
        invariant NoFailure(old(fd.script)) ==> NoFailure(fd.script)
      {
        ghost var script := fd.script;
        var r, c := PutChar(usrbuf, n - 1, stream, taken);
        UsedOn(old(fd.script), script, fd.script, r == -1);
        if r == 1 {
          taken := taken + [c];
          n := n + 1;
          if c == '\n' {
            break;
          }
        } else if r == 0 {
          break;
        } else {
          return -1, taken;
        }
      }
      LineEnds(taken, Unread(), maxlen - 1);
      rc := n - 1;
    }

    /** Reads one byte and stores it behind the `at` that were taken before. */
    method PutChar(usrbuf: array<char>, at: nat, ghost stream: seq<char>, ghost taken: seq<char>) returns (r: int, c: char)
      requires Valid() && at < usrbuf.Length && usrbuf != buf
      requires usrbuf[..at] == taken && stream == taken + Unread()
      modifies this, fd, buf, usrbuf
      ensures Valid() && -1 <= r <= 1
      ensures r == 1 ==> usrbuf[..at + 1] == taken + [c] && stream == taken + [c] + Unread()
      ensures r != 1 ==> usrbuf[..at] == taken && stream == taken + Unread()
      ensures SameOutside(usrbuf[..], old(usrbuf[..]), at, if r == 1 then at + 1 else at)
      ensures r == 0 ==> Unread() == []
      ensures Used(old(fd.script), fd.script, r == -1)
      ensures NoFailure(old(fd.script)) ==> r >= 0 && NoFailure(fd.script)
    {
      ghost var before := Unread();
      r, c := ReadChar();
      if r == 1 {
        Moved(taken, before, c, Unread());
        Store(usrbuf, at, c);
      }
    }
  }

  ghost predicate NoNewline(s: seq<char>) {
    forall i :: 0 <= i < |s| ==> s[i] != '\n'
  }

  lemma Moved(taken: seq<char>, before: seq<char>, c: char, rest: seq<char>)
    requires before == [c] + rest
    ensures taken + before == taken + [c] + rest
  {
  }

  lemma Taken(stream: seq<char>, taken: seq<char>, rest: seq<char>)
    requires stream == taken + rest
    ensures taken == stream[..|taken|] && rest == stream[|taken|..] && IsSuffix(rest, stream)
  {
  }

  /** Where the line ends: with the first newline, at `max` characters, or with the stream. */
  lemma {:induction false} LineEnds(taken: seq<char>, rest: seq<char>, max: nat)
    requires |taken| <= max
    requires taken != [] ==> NoNewline(taken[..|taken| - 1])
    requires rest == [] || |taken| == max || (taken != [] && taken[|taken| - 1] == '\n')
    ensures LineLength(taken + rest, max) == |taken|
  {
    if taken != [] {
      assert (taken + rest)[1..] == taken[1..] + rest;
      if |taken| > 1 || taken[0] != '\n' {
        assert |taken| > 1 ==> taken[1..][..|taken| - 2] == taken[..|taken| - 1][1..];
        LineEnds(taken[1..], rest, max - 1);
      }
    }
  }

  // ----- any mix of requests

  datatype Request = Line(maxlen: nat) | Bytes(n: nat)

  ghost predicate Fits(r: Request, room: nat) {
    match r
    case Line(maxlen) => 1 <= maxlen <= room
    case Bytes(n) => n <= room
  }

  function ReplyLength(stream: seq<char>, r: Request): (n: nat)
    ensures n <= |stream|
  {
    match r
    case Line(maxlen) => LineLength(stream, if maxlen == 0 then 0 else maxlen - 1)
    case Bytes(n) => Min(n, |stream|)
  }

  /** The replies to `requests` on the whole stream at once, and what is left of it. */
  function Replies(stream: seq<char>, requests: seq<Request>): (seq<seq<char>>, seq<char>) {
    if requests == [] then ([], stream)
    else
      var n := ReplyLength(stream, requests[0]);
      var (more, rest) := Replies(stream[n..], requests[1..]);
      ([stream[..n]] + more, rest)
  }

  function Joined(parts: seq<seq<char>>): seq<char> {
    if parts == [] then [] else parts[0] + Joined(parts[1..])
  }

  /** Nothing is lost and nothing repeated. */
  lemma {:induction false} RepliesPartition(stream: seq<char>, requests: seq<Request>)
    ensures Joined(Replies(stream, requests).0) + Replies(stream, requests).1 == stream
  {
    if requests != [] {
      var n := ReplyLength(stream, requests[0]);
      RepliesPartition(stream[n..], requests[1..]);
      var (more, rest) := Replies(stream[n..], requests[1..]);
      assert [stream[..n]] + more == Replies(stream, requests).0;
      assert ([stream[..n]] + more)[1..] == more;
      assert stream == stream[..n] + (Joined(more) + rest);
    }
  }

  /** However the stream is cut up and interrupted, the replies are those on the whole stream. */
  method Serve(rio: Reader, usrbuf: array<char>, requests: seq<Request>) returns (replies: seq<seq<char>>)
    requires rio.Valid() && usrbuf != rio.buf && NoFailure(rio.fd.script)
    requires forall i :: 0 <= i < |requests| ==> Fits(requests[i], usrbuf.Length)
    modifies rio, rio.fd, rio.buf, usrbuf
    ensures rio.Valid()
    ensures replies == Replies(old(rio.Unread()), requests).0
    ensures rio.Unread() == Replies(old(rio.Unread()), requests).1
  {
    replies := [];
    ghost var stream := rio.Unread();
    assert requests[0..] == requests;
    for i := 0 to |requests|
      invariant rio.Valid() && NoFailure(rio.fd.script)
      invariant Replies(stream, requests).0 == replies + Replies(rio.Unread(), requests[i..]).0
      invariant Replies(stream, requests).1 == Replies(rio.Unread(), requests[i..]).1
    {
      var reply := ServeOne(rio, usrbuf, requests[i]);
      assert requests[i..][1..] == requests[i + 1..];
      replies := replies + [reply];
    }
    assert requests[|requests|..] == [];
  }

  method ServeOne(rio: Reader, usrbuf: array<char>, request: Request) returns (reply: seq<char>)
    requires rio.Valid() && usrbuf != rio.buf && NoFailure(rio.fd.script) && Fits(request, usrbuf.Length)
    modifies rio, rio.fd, rio.buf, usrbuf
    ensures rio.Valid() && NoFailure(rio.fd.script)
    ensures var n := ReplyLength(old(rio.Unread()), request);
      reply == old(rio.Unread())[..n] && rio.Unread() == old(rio.Unread())[n..]
  {
    var rc;
    match request {
      case Line(maxlen) => rc := rio.RioReadlineb(usrbuf, maxlen);
      case Bytes(n) => rc := rio.RioReadnb(usrbuf, n);
    }
    reply := usrbuf[..rc];
  }
}
