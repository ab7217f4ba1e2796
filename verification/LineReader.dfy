/** One TCP session read line by line, with a byte budget for every observation. */
module LineReader {
  import opened Basics

  type Byte = b: int | 0 <= b < 256

  const NEWLINE: Byte := 10
  const RETURN: Byte := 13

  datatype ReadError = NoConnection | NotBegun | TimedOut | TooLong | Closed | NotText

  function IndexOfNewline(s: seq<Byte>): (r: nat)
    ensures r <= |s|
    ensures forall i :: 0 <= i < r ==> s[i] != NEWLINE
    ensures r < |s| ==> s[r] == NEWLINE
  {
    if s == [] || s[0] == NEWLINE then 0 else 1 + IndexOfNewline(s[1..])
  }

  /** `rstrip('\r')`. */
  function Stripped(line: seq<Byte>): (r: seq<Byte>)
    ensures r <= line && (r != [] ==> r[|r| - 1] != RETURN)
    ensures forall i :: |r| <= i < |line| ==> line[i] == RETURN
  {
    if line != [] && line[|line| - 1] == RETURN then Stripped(line[..|line| - 1]) else line
  }

  /** A connection; `decodes` says which lines are well-formed text. */
  class StatusConnection {
    const byteLimit: nat
    const decodes: seq<Byte> -> bool
    var connected: bool
    var buffer: seq<Byte>
    /** Unset until the first observation begins. */
    var remaining: Option<int>

    /** All bytes of this session, the lines taken from it, and what this observation has taken. */
    ghost var received: seq<Byte>
    ghost var taken: seq<seq<Byte>>
    ghost var consumed: nat

    ghost predicate Valid() reads this {
      && (!connected ==> buffer == [] && received == [] && taken == [])
      && received == Joined(taken) + buffer
      && (forall line :: line in taken ==> NEWLINE !in line)
      && (remaining.None? ==> buffer == [])
      && (remaining.Some? ==> |buffer| <= remaining.value && consumed + remaining.value == byteLimit)
    }

    constructor (byteLimit: nat, decodes: seq<Byte> -> bool)
      ensures Valid() && !connected && remaining == None && this.byteLimit == byteLimit && this.decodes == decodes
    {
      this.byteLimit, this.decodes := byteLimit, decodes;
      connected, buffer, remaining := false, [], None;
      received, taken, consumed := [], [], 0;
    }

    method Close()
      requires Valid()
      modifies this
      ensures Valid() && !connected && buffer == [] && remaining == old(remaining)
    {
      connected, buffer := false, [];
      received, taken := [], [];
    }

    /** Start an observation with a fresh budget; what an earlier one left in the buffer counts against it. */
    method Begin() returns (r: Result<bool, ReadError>)
      requires Valid()
      modifies this
      ensures Valid() && remaining == Some(byteLimit) && consumed == 0
      ensures buffer == old(buffer) && received == old(received) && taken == old(taken)
      ensures r.Ok? ==> connected && r.value == !old(connected)
      ensures r.Err? ==> !connected && r.error == NoConnection
    {
      remaining, consumed := Some(byteLimit), 0;
      if connected { return Ok(false); }
      var accepted: bool := *;
      if !accepted { return Err(NoConnection); }
      connected := true;
      return Ok(true);
    }

    /** A `recv` of at most `limit` bytes: some bytes, none when the peer has closed, or a timeout. */
    method Receive(limit: nat) returns (r: Result<seq<Byte>, ReadError>)
      requires limit > 0
      ensures r.Ok? ==> |r.value| <= limit
      ensures r.Err? ==> r.error == TimedOut
    {
      var timedOut: bool := *;
      if timedOut { return Err(TimedOut); }
      var chunk: seq<Byte> := *;
      r := Ok(if |chunk| <= limit then chunk else chunk[..limit]);
    }

    /** The next line. The negative-budget error of the source has no case here: it cannot arise. */
    method Line() returns (r: Result<seq<Byte>, ReadError>)
      requires Valid()
      modifies this
      ensures Valid() && connected == old(connected) && old(received) <= received
      ensures r.Ok? ==>
                connected && taken != [] && r.value == Stripped(taken[|taken| - 1]) &&
                taken[..|taken| - 1] == old(taken)
      ensures r.Ok? ==> decodes(taken[|taken| - 1])
      ensures r.Err? ==>
                taken == old(taken) || (r.error == NotText && |taken| == |old(taken)| + 1 &&
                taken[..|old(taken)|] == old(taken))
      ensures r.Err? && r.error == TooLong ==> remaining.Some? && |buffer| == remaining.value && NEWLINE !in buffer
      ensures |taken| == |old(taken)| ==> remaining == old(remaining) && consumed == old(consumed)
      ensures |taken| > |old(taken)| ==>
                old(remaining).Some? && consumed == old(consumed) + |taken[|old(taken)|]| + 1 <= byteLimit
    {
      if !connected { return Err(NoConnection); }
      if remaining.None? { return Err(NotBegun); }
      while true
        invariant Valid() && connected && remaining == old(remaining) && taken == old(taken) &&
                  consumed == old(consumed)
        invariant old(received) <= received
        decreases remaining.value - |buffer|
      {
        var late: bool := *;
        if late { return Err(TimedOut); }
        var n := IndexOfNewline(buffer);
        if n < |buffer| {
          var line, rest := buffer[..n], buffer[n + 1..];
          SnocJoined(taken, line);
          assert buffer == line + [NEWLINE] + rest;
          buffer := rest;
          taken, consumed := taken + [line], consumed + n + 1;
          remaining := Some(remaining.value - (n + 1));
          assert remaining.value >= 0;
          if !decodes(line) { return Err(NotText); }
          return Ok(Stripped(line));
        }
        if |buffer| >= remaining.value { return Err(TooLong); }
        var chunk := Receive(Min(4096, remaining.value - |buffer|));
        if chunk.Err? { return Err(chunk.error); }
        if chunk.value == [] { return Err(Closed); }
        buffer := buffer + chunk.value;
        received := received + chunk.value;
      }
    }
  }

  // ---- The lines do not depend on the chunks ----------------------------------------

  /** Lines with the newlines that ended them. */
  function Joined(lines: seq<seq<Byte>>): seq<Byte> {
    if lines == [] then [] else lines[0] + [NEWLINE] + Joined(lines[1..])
  }

  /** The newline split of a stream: its complete lines. */
  function Split(stream: seq<Byte>): seq<seq<Byte>>
    decreases |stream|
  {
    var n := IndexOfNewline(stream);
    if n == |stream| then [] else [stream[..n]] + Split(stream[n + 1..])
  }

  lemma {:induction false} SnocJoined(lines: seq<seq<Byte>>, line: seq<Byte>)
    ensures Joined(lines + [line]) == Joined(lines) + line + [NEWLINE]
  {
    if lines == [] {
      assert lines + [line] == [line];
      assert Joined([line]) == line + [NEWLINE] + Joined([]);
    } else {
      SnocJoined(lines[1..], line);
      assert (lines + [line])[1..] == lines[1..] + [line];
      assert (lines + [line])[0] == lines[0];
    }
  }

  lemma FirstNewline(line: seq<Byte>, rest: seq<Byte>)
    requires NEWLINE !in line
    ensures IndexOfNewline(line + [NEWLINE] + rest) == |line|
  {
    var s := line + [NEWLINE] + rest;
    assert s[|line|] == NEWLINE;
    forall i | 0 <= i < |line| ensures s[i] != NEWLINE { assert s[i] in line; }
  }

  lemma SplitCons(line: seq<Byte>, tail: seq<Byte>)
    requires NEWLINE !in line
    ensures Split(line + [NEWLINE] + tail) == [line] + Split(tail)
  {
    var stream := line + [NEWLINE] + tail;
    FirstNewline(line, tail);
    assert stream[..|line|] == line && stream[|line| + 1..] == tail;
  }

  /** The lines taken are the newline split of the stream, as far as it has been read; how the bytes
      were cut into chunks and observations leaves no trace. */
  lemma {:induction false} LinesAreTheSplit(taken: seq<seq<Byte>>, rest: seq<Byte>)
    requires forall line :: line in taken ==> NEWLINE !in line
    ensures Split(Joined(taken) + rest) == taken + Split(rest)
  {
    if taken == [] {
      assert Joined(taken) + rest == rest;
    } else {
      assert taken[0] in taken;
      LinesAreTheSplit(taken[1..], rest);
      OneMoreLine(taken[0], taken[1..], rest);
      assert taken == [taken[0]] + taken[1..];
    }
  }

  lemma JoinedCons(line: seq<Byte>, lines: seq<seq<Byte>>, rest: seq<Byte>)
    ensures Joined([line] + lines) + rest == line + [NEWLINE] + (Joined(lines) + rest)
  {
    assert ([line] + lines)[1..] == lines;
  }

  lemma OneMoreLine(line: seq<Byte>, lines: seq<seq<Byte>>, rest: seq<Byte>)
    requires NEWLINE !in line && Split(Joined(lines) + rest) == lines + Split(rest)
    ensures Split(Joined([line] + lines) + rest) == [line] + lines + Split(rest)
  {
    var tail, split := Joined(lines) + rest, Split(rest);
    JoinedCons(line, lines, rest);
    SplitCons(line, tail);
    calc {
      Split(Joined([line] + lines) + rest);
      [line] + Split(tail);
      [line] + (lines + split);
      [line] + lines + split;
    }
  }

  lemma {:induction false} SplitPrefix(stream: seq<Byte>, more: seq<Byte>)
    ensures Split(stream) <= Split(stream + more)
    decreases |stream|
  {
    var n := IndexOfNewline(stream);
    if n < |stream| {
      var line, rest := stream[..n], stream[n + 1..];
      assert stream == line + [NEWLINE] + rest;
      assert stream + more == line + [NEWLINE] + (rest + more);
      SplitCons(line, rest);
      SplitCons(line, rest + more);
      SplitPrefix(rest, more);
    }
  }

  /** Two sessions whose peers send the same bytes agree on every line both have taken. */
  lemma ChunksDoNotMatter(stream: seq<Byte>, a: StatusConnection, b: StatusConnection, k: nat)
    requires a.Valid() && b.Valid() && a.received <= stream && b.received <= stream
    requires k < |a.taken| && k < |b.taken|
    ensures a.taken[k] == b.taken[k] && k < |Split(stream)| && a.taken[k] == Split(stream)[k]
  {
    LinesAreTheSplit(a.taken, a.buffer);
    LinesAreTheSplit(b.taken, b.buffer);
    SplitPrefix(a.received, stream[|a.received|..]);
    SplitPrefix(b.received, stream[|b.received|..]);
    assert stream == a.received + stream[|a.received|..] && stream == b.received + stream[|b.received|..];
    assert Split(a.received)[k] == a.taken[k] && Split(b.received)[k] == b.taken[k];
  }
}
