/**
 * How the reactor cuts a connection's byte stream into lines (server/EpollServer.cpp, handleRead). What recv returns
 * is input; the connection is proved against the history of those results.
 */
module Framing {
  import opened Text

  const MAX_INBUF := 65536
  const MAX_LINES: nat := 32

  /** One result of recv; Data is never empty. */
  datatype Recv = Data(bytes: string) | Eof | Again | Interrupted | Failed

  // ---------------------------------------------------------------- lines of a stream

  /** string::find('\n'); the length of s when there is none. */
  function Find(s: string): (k: nat)
    ensures k <= |s| && (k < |s| ==> s[k] == '\n') && forall i :: 0 <= i < k ==> s[i] != '\n'
  {
    IndexOf(s, '\n')
  }

  function Strip(line: string): string {
    if |line| > 0 && line[|line| - 1] == '\r' then line[..|line| - 1] else line
  }

  /** The complete lines of s, each without its newline and one carriage return before it. */
  function Lines(s: string): seq<string>
    decreases |s|
  {
    if Find(s) == |s| then [] else [Strip(s[..Find(s)])] + Lines(s[Find(s) + 1..])
  }

  function Newlines(s: string): nat {
    if s == [] then 0 else (if s[0] == '\n' then 1 else 0) + Newlines(s[1..])
  }

  ghost predicate Ended(s: string) { s != [] ==> s[|s| - 1] == '\n' }

  lemma FindIn(a: string, b: string)
    requires Find(a) < |a|
    ensures Find(a + b) == Find(a)
  {
    assert (a + b)[Find(a)] == '\n';
    assert forall i :: 0 <= i < Find(a) ==> (a + b)[i] == a[i];
  }

  /** Cutting at a line's end cuts the list of lines. */
  lemma {:induction false} LinesAppend(a: string, b: string)
    requires Ended(a)
    ensures Lines(a + b) == Lines(a) + Lines(b)
    decreases |a|
  {
    hide Find, Strip;
    if a == [] {
      assert a + b == b;
    } else {
      var k := Find(a);
      assert a[|a| - 1] == '\n';
      FindIn(a, b);
      assert (a + b)[..k] == a[..k] && (a + b)[k + 1..] == a[k + 1..] + b;
      LinesAppend(a[k + 1..], b);
    }
  }

  lemma {:induction false} NewlinesAppend(a: string, b: string)
    ensures Newlines(a + b) == Newlines(a) + Newlines(b)
  {
    if a == [] {
      assert a + b == b;
    } else {
      assert (a + b)[1..] == a[1..] + b;
      NewlinesAppend(a[1..], b);
    }
  }

  lemma {:induction false} NoNewlines(s: string)
    requires forall i :: 0 <= i < |s| ==> s[i] != '\n'
    ensures Newlines(s) == 0
  {
    if s != [] { NoNewlines(s[1..]); }
  }

  lemma {:induction false} LineCount(s: string)
    ensures |Lines(s)| == Newlines(s)
    decreases |s|
  {
    var k := Find(s);
    NoNewlines(s[..k]);
    if k < |s| {
      assert s == s[..k] + (['\n'] + s[k + 1..]);
      NewlinesAppend(s[..k], ['\n'] + s[k + 1..]);
      assert (['\n'] + s[k + 1..])[1..] == s[k + 1..];
      LineCount(s[k + 1..]);
    } else {
      assert s[..k] == s;
    }
  }

  lemma OneLine(b: string)
    requires forall i :: 0 <= i < |b| ==> b[i] != '\n'
    ensures Lines(b) == [] && Lines(b + ['\n']) == [Strip(b)]
  {
    hide Strip;
    var t := b + ['\n'];
    assert t[|b|] == '\n' && Find(t) == |b| && t[..|b|] == b && t[|b| + 1..] == [];
  }

  /** A line ends with a newline, and one carriage return before it belongs to the end, not to the line. */
  lemma LineEndings(a: string)
    requires forall i :: 0 <= i < |a| ==> a[i] != '\n'
    ensures Lines(a) == [] && Lines(a + ['\r'] + ['\n']) == [a]
    ensures a == [] || a[|a| - 1] != '\r' ==> Lines(a + ['\n']) == [a]
  {
    hide Lines;
    OneLine(a);
    OneLine(a + ['\r']);
    assert (a + ['\r'])[..|a|] == a;
  }

  // ---------------------------------------------------------------- a connection as a value

  datatype Conn = Conn(inbuf: string, handed: seq<string>, open: bool)

  /** The buffer after at most n lines have been taken off its front. */
  function Drained(s: string, n: nat): string
    decreases n
  {
    if n == 0 || Find(s) == |s| then s else Drained(s[Find(s) + 1..], n - 1)
  }

  function Take(ls: seq<string>, n: nat): seq<string> { if |ls| <= n then ls else ls[..n] }

  function OnRecv(c: Conn, r: Recv): Conn {
    match r
    case Data(bytes) =>
      var buf := c.inbuf + bytes;
      if |buf| > MAX_INBUF then Conn(buf, c.handed, false)
      else Conn(Drained(buf, MAX_LINES), c.handed + Take(Lines(buf), MAX_LINES), true)
    case Again => c
    case Interrupted => c
    case _ => c.(open := false)
  }

  /** The connection after a history of recv results; nothing is read once it is closed. */
  function After(h: seq<Recv>): Conn {
    if h == [] then Conn([], [], true)
    else
      var c := After(h[..|h| - 1]);
      if c.open then OnRecv(c, h[|h| - 1]) else c
  }

  /** Only the end of the stream, an error, and more than 65536 waiting bytes close a connection. */
  lemma ClosesExactly(h: seq<Recv>, r: Recv)
    requires After(h).open
    ensures After(h + [r]).open <==>
      r.Again? || r.Interrupted? || (r.Data? && |After(h).inbuf| + |r.bytes| <= 65536)
    ensures r.Again? || r.Interrupted? ==> After(h + [r]) == After(h)
  {
    hide Drained, Lines;
    assert (h + [r])[..|h|] == h;
  }

  /** The bytes appended to inbuf. */
  function Received(h: seq<Recv>): string {
    if h == [] then []
    else
      var before := h[..|h| - 1];
      if After(before).open && h[|h| - 1].Data? then Received(before) + h[|h| - 1].bytes else Received(before)
  }

  /** The taken part is whole lines, and the rest is left. */
  lemma {:induction false} DrainSplits(s: string, n: nat) returns (taken: string)
    ensures s == taken + Drained(s, n) && Ended(taken) && Lines(taken) == Take(Lines(s), n)
    decreases n
  {
    hide Lines, Find, Strip, Ended;
    EndedAppend([], []);
    var k := Find(s);
    if n == 0 {
      taken := [];
      NoLine([]);
    } else if k == |s| {
      taken := [];
      NoLine([]);
      NoLine(s);
    } else {
      var line, rest := s[..k + 1], s[k + 1..];
      var more := DrainSplits(rest, n - 1);
      taken := line + more;
      FirstLine(s);
      LinesAppend(line, more);
      EndedAppend(line, more);
      TakeCons(Strip(s[..k]), Lines(rest), n);
      Rejoin(s, k + 1, more, Drained(s, n));
    }
  }

  lemma Rejoin(s: string, k: nat, more: string, rest: string)
    requires k <= |s| && s[k..] == more + rest
    ensures s == (s[..k] + more) + rest
  {
    assert s == s[..k] + s[k..];
  }

  lemma NoLine(s: string)
    requires Find(s) == |s|
    ensures Lines(s) == []
  {}

  lemma TakeCons(x: string, ls: seq<string>, n: nat)
    requires n >= 1
    ensures Take([x] + ls, n) == [x] + Take(ls, n - 1)
  {}

  lemma FirstLine(s: string)
    requires Find(s) < |s|
    ensures var line := s[..Find(s) + 1];
      && Ended(line) && Lines(line) == [Strip(s[..Find(s)])]
      && Lines(s) == [Strip(s[..Find(s)])] + Lines(s[Find(s) + 1..])
  {
    var line, rest := s[..Find(s) + 1], s[Find(s) + 1..];
    assert s == line + rest;
    assert line[|line| - 1] == '\n';
    FindIn(line, rest);
    assert line[..Find(s)] == s[..Find(s)];
  }

  // ---------------------------------------------------------------- over every history

  /** consumed bytes + inbuf = bytes received, and the lines handed on are exactly those of the consumed bytes. */
  lemma {:induction false} Framed(h: seq<Recv>) returns (consumed: string)
    ensures Received(h) == consumed + After(h).inbuf && Ended(consumed) && After(h).handed == Lines(consumed)
    ensures After(h).open ==> |After(h).inbuf| <= MAX_INBUF
  {
    hide Lines, Drained, Ended, Take;
    if h == [] {
      consumed := [];
      NoLine([]);
      EndedAppend([], []);
    } else {
      var before, r := h[..|h| - 1], h[|h| - 1];
      consumed := Framed(before);
      if After(before).open && r.Data? {
        consumed := FramedChunk(After(before), consumed, r.bytes);
      }
    }
  }

  lemma FramedChunk(c: Conn, before: string, bytes: string) returns (consumed: string)
    requires Ended(before) && c.handed == Lines(before)
    ensures var c' := OnRecv(c, Data(bytes));
      && before + c.inbuf + bytes == consumed + c'.inbuf && Ended(consumed) && c'.handed == Lines(consumed)
      && (c'.open ==> |c'.inbuf| <= MAX_INBUF)
  {
    hide Lines, Drained, Ended, Take;
    var buf := c.inbuf + bytes;
    consumed := before;
    assert before + c.inbuf + bytes == before + buf;
    if |buf| <= MAX_INBUF {
      var taken := DrainSplits(buf, MAX_LINES);
      LinesAppend(before, taken);
      EndedAppend(before, taken);
      consumed := before + taken;
      assert before + (taken + Drained(buf, MAX_LINES)) == consumed + Drained(buf, MAX_LINES);
    }
  }

  lemma EndedAppend(a: string, b: string)
    ensures Ended([])
    ensures Ended(a) && Ended(b) ==> Ended(a + b)
  {}

  /** The lines handed to parseLine are a prefix of the stream's lines; the others are still in inbuf. */
  lemma HandedIsPrefix(h: seq<Recv>)
    ensures Lines(Received(h)) == After(h).handed + Lines(After(h).inbuf)
  {
    var consumed := Framed(h);
    LinesAppend(consumed, After(h).inbuf);
  }

  predicate NoNewline(s: string) { Find(s) == |s| }

  /**
   * Packet splitting does not matter: two connections that received the same bytes in whatever chunks have handed on
   * prefixes of one list of lines, and when neither buffer holds a complete line they agree on everything.
   */
  lemma SplittingDoesNotMatter(h: seq<Recv>, g: seq<Recv>)
    requires Received(h) == Received(g)
    ensures After(h).handed <= After(g).handed || After(g).handed <= After(h).handed
    ensures NoNewline(After(h).inbuf) && NoNewline(After(g).inbuf) ==>
      After(h).handed == After(g).handed && After(h).inbuf == After(g).inbuf
  {
    hide Received, After, Lines;
    HandedIsPrefix(h);
    HandedIsPrefix(g);
    var all := Lines(Received(h));
    assert After(h).handed == all[..|After(h).handed|] && After(g).handed == all[..|After(g).handed|];
    if NoNewline(After(h).inbuf) && NoNewline(After(g).inbuf) {
      NoLine(After(h).inbuf);
      NoLine(After(g).inbuf);
      var c := Framed(h);
      var d := Framed(g);
      if |c| >= |d| {
        SameRest(c, After(h).inbuf, d, After(g).inbuf);
      } else {
        SameRest(d, After(g).inbuf, c, After(h).inbuf);
      }
    }
  }

  /** A newline-terminated part cannot reach into a newline-free rest. */
  lemma SameRest(c: string, i: string, d: string, j: string)
    requires c + i == d + j && |c| >= |d| && Ended(c) && NoNewline(j)
    ensures i == j
  {
    if |c| > |d| { Overlap(c, i, d, j); }
    assert i == (c + i)[|c|..] && j == (d + j)[|d|..];
  }

  lemma Overlap(c: string, i: string, d: string, j: string)
    requires |c| > |d| && Ended(c) && NoNewline(j)
    ensures c + i != d + j
  {
    assert (c + i)[|c| - 1] == '\n';
    if |c| <= |d + j| {
      assert (d + j)[|c| - 1] == j[|c| - 1 - |d|];
    }
  }

  // ---------------------------------------------------------------- the cap of 32 lines

  /** Complete lines left in inbuf: each recv adds its newlines and takes off at most 32. */
  function Backlog(h: seq<Recv>): nat {
    if h == [] then 0
    else
      var b, r := Backlog(h[..|h| - 1]), h[|h| - 1];
      if r.Data? then (if b + Newlines(r.bytes) > MAX_LINES then b + Newlines(r.bytes) - MAX_LINES else 0) else b
  }

  lemma {:induction false} BacklogIsLines(h: seq<Recv>)
    requires After(h).open
    ensures |Lines(After(h).inbuf)| == Backlog(h)
  {
    hide Lines, Drained;
    if h == [] {
      NoLine([]);
    } else {
      var before, r := h[..|h| - 1], h[|h| - 1];
      BacklogIsLines(before);
      if r.Data? {
        var inbuf := After(before).inbuf;
        var buf := inbuf + r.bytes;
        NewlinesAppend(inbuf, r.bytes);
        LineCount(inbuf);
        LineCount(buf);
        var taken := DrainSplits(buf, MAX_LINES);
        LinesAppend(taken, Drained(buf, MAX_LINES));
      }
    }
  }

  /** Every received line has been handed on if and only if no recv left a backlog. */
  lemma AllHandedIff(h: seq<Recv>)
    requires After(h).open
    ensures After(h).handed == Lines(Received(h)) <==> Backlog(h) == 0
  {
    hide Lines, After, Received, Backlog;
    HandedIsPrefix(h);
    BacklogIsLines(h);
  }

  /** Short chunks suffice: with at most 32 newlines in each, nothing ever waits. */
  lemma {:induction false} SmallChunksLeaveNothing(h: seq<Recv>)
    requires forall k :: 0 <= k < |h| && h[k].Data? ==> Newlines(h[k].bytes) <= MAX_LINES
    ensures Backlog(h) == 0
  {
    if h != [] { SmallChunksLeaveNothing(h[..|h| - 1]); }
  }

  function Burst(n: nat): string { if n == 0 then [] else ['0', '\n'] + Burst(n - 1) }

  lemma {:induction false} BurstSize(n: nat)
    ensures Newlines(Burst(n)) == n && |Burst(n)| == 2 * n
  {
    if n > 0 {
      BurstSize(n - 1);
      NewlinesAppend(['0', '\n'], Burst(n - 1));
      assert ['0', '\n'][1..] == ['\n'];
    }
  }

  /** So the cap can keep a received line from being handed on: 33 short lines in one segment leave one waiting for
      bytes that need not come, and lose it when the peer then closes. */
  lemma LastLineWaits()
    ensures var h := [Data(Burst(33)), Again];
      After(h).open && |Lines(Received(h))| == 33 && |After(h).handed| == 32
    ensures var h := [Data(Burst(33)), Eof];
      !After(h).open && |Lines(Received(h))| == 33 && |After(h).handed| == 32
  {
    hide Lines, Burst, Drained, After, Received, Newlines;
    BurstSize(33);
    LineCount(Burst(33));
    var one := [Data(Burst(33))];
    Snoc([], one[0]);
    Snoc(one, Again);
    Snoc(one, Eof);
    NothingYet();
    assert [] + one == one && [] + Burst(33) == Burst(33);
    assert one + [Again] == [Data(Burst(33)), Again] && one + [Eof] == [Data(Burst(33)), Eof];
  }

  lemma NothingYet()
    ensures After([]) == Conn([], [], true) && Received([]) == []
  {}

  lemma Snoc(h: seq<Recv>, r: Recv)
    ensures After(h + [r]) == if After(h).open then OnRecv(After(h), r) else After(h)
    ensures Received(h + [r]) == if After(h).open && r.Data? then Received(h) + r.bytes else Received(h)
  {
    assert (h + [r])[..|h|] == h;
  }

  // ---------------------------------------------------------------- the class

  class Connection {
    var inbuf: string
    var open: bool
    var handed: seq<string>          // the lines given to parseLine, in order
    ghost var log: seq<Recv>

    ghost predicate Valid()
      reads this
    {
      Conn(inbuf, handed, open) == After(log)
    }

    constructor ()
      ensures Valid() && log == []
    {
      inbuf, open, handed, log := [], true, [], [];
    }

    /** Hands on at most MAX_LINES lines and erases them from inbuf. */
    method ParseLines()
      modifies this`inbuf, this`handed
      ensures inbuf == Drained(old(inbuf), MAX_LINES)
      ensures handed == old(handed) + Take(Lines(old(inbuf)), MAX_LINES)
    {
      hide Strip, Find, Lines, Drained, Take;
      var parsed := 0;
      while parsed < MAX_LINES && Find(inbuf) != |inbuf|
        invariant 0 <= parsed <= MAX_LINES
        invariant Drained(inbuf, MAX_LINES - parsed) == Drained(old(inbuf), MAX_LINES)
        invariant handed + Take(Lines(inbuf), MAX_LINES - parsed) == old(handed) + Take(Lines(old(inbuf)), MAX_LINES)
      {
        var pos := Find(inbuf);
        var line := Strip(inbuf[..pos]);
        TakeLine(inbuf, MAX_LINES - parsed);
        assert (handed + [line]) + Take(Lines(inbuf[pos + 1..]), MAX_LINES - parsed - 1) ==
          handed + Take(Lines(inbuf), MAX_LINES - parsed);
        handed := handed + [line];
        inbuf := inbuf[pos + 1..];
        parsed := parsed + 1;
      }
      TakeNone(inbuf, MAX_LINES - parsed);
    }

    /** One result of recv; whether to read on. */
    method OnResult(r: Recv) returns (more: bool)
      requires Valid() && open
      modifies this
      ensures Valid() && log == old(log) + [r] && (more <==> open && r != Again)
    {
      hide Lines, Drained, Take, After;
      Snoc(log, r);
      log := log + [r];
      match r
      case Data(bytes) =>
        inbuf := inbuf + bytes;
        if |inbuf| > MAX_INBUF {
          open := false;
          return false;
        }
        ParseLines();
        return true;
      case Again => return false;
      case Interrupted => return true;
      case _ =>
        open := false;
        return false;
    }

    /** Reads until recv would block, the peer closes, an error, or the buffer overflows; returns how many of the
        given results were used. */
    method HandleRead(results: seq<Recv>) returns (used: nat)
      requires Valid() && open
      modifies this
      ensures Valid() && used <= |results| && log == old(log) + results[..used]
      ensures used < |results| ==> used > 0 && (results[used - 1] == Again || !open)
    {
      used := 0;
      hide After;
      while used < |results|
        invariant used <= |results| && log == old(log) + results[..used]
        invariant Valid() && open
      {
        assert results[..used] + [results[used]] == results[..used + 1];
        var more := OnResult(results[used]);
        used := used + 1;
        if !more { return; }
      }
    }
  }

  lemma TakeLine(s: string, n: nat)
    requires n >= 1 && Find(s) < |s|
    ensures var rest := s[Find(s) + 1..];
      Drained(s, n) == Drained(rest, n - 1) && Take(Lines(s), n) == [Strip(s[..Find(s)])] + Take(Lines(rest), n - 1)
  {
    TakeCons(Strip(s[..Find(s)]), Lines(s[Find(s) + 1..]), n);
  }

  lemma TakeNone(s: string, n: nat)
    requires n == 0 || Find(s) == |s|
    ensures Drained(s, n) == s && Take(Lines(s), n) == []
  {}
}
