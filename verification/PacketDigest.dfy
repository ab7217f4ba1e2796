/** The identity digest of an encoded audio stream: what is fed to the hash, and which streams are accepted. */
module PacketDigest {
  import opened Basics
  import opened FlatMaps

  type Byte = b: int | 0 <= b < 256

  const U32: nat := 0x1_0000_0000
  const U64: nat := 0x1_0000_0000_0000_0000

  type Word = x: nat | x < 0x1_0000_0000
  type Long = x: nat | x < 0x1_0000_0000_0000_0000
  /** Byte strings that fit in memory. */
  type Bytes = s: seq<Byte> | |s| < 0x1_0000_0000_0000_0000

  const VERSION: string := "musicata-audio-packet-digest-v1"
  const MAX_PACKET_BYTES: nat := 8 * 1024 * 1024

  /** A packet's track and its data. */
  datatype Packet = Packet(track: nat, data: Data)

  datatype Data = Data(ts: Long, dur: Long, trimStart: Word, trimEnd: Word, buf: Bytes) {
    /** Symphonia's block duration: the played duration with both trims back on, in 64 bits. */
    function Block(): Long { (dur + trimStart + trimEnd) % U64 }

    function End(): nat { ts + Block() }
  }

  /** `text` renders the whole decoder contract; `pcmWidth` is the sample width of a PCM codec. */
  datatype Params = Params(text: Bytes, pcmWidth: Option<nat>, channels: Option<nat>, frames: Option<nat>)

  datatype Track = Track(id: nat, params: Params)

  datatype DigestError =
    | NotOnePlayable | NoDeclaredFrames | TooSlow | ReadFailed
    | BadPacketSize | NoChannels | SizeOverflow | Truncated | NotContiguous | TimeOverflow
    | NoPackets | Incomplete

  // ---- The transcript ---------------------------------------------------------------

  /** The `width` low bytes of a number, least significant first. */
  function LittleEndian(n: nat, width: nat): (r: seq<Byte>)
    ensures |r| == width
    decreases width
  {
    if width == 0 then [] else [n % 256] + LittleEndian(n / 256, width - 1)
  }

  function Framed(bytes: Bytes): seq<Byte> { LittleEndian(|bytes|, 8) + bytes }

  function AsciiBytes(s: string): seq<Byte> {
    seq(|s|, i requires 0 <= i < |s| => if s[i] as int < 256 then s[i] as int else 0)
  }

  function DataFrames(d: Data): (r: seq<Bytes>)
    ensures |r| == 5
  {
    [LittleEndian(d.ts, 8), LittleEndian(d.dur, 8), LittleEndian(d.trimStart, 4), LittleEndian(d.trimEnd, 4), d.buf]
  }

  function Head(p: Params): seq<Bytes> { [AsciiBytes(VERSION), p.text] }

  function Tail(count: nat, observed: nat): seq<Bytes> { [LittleEndian(count, 8), LittleEndian(observed, 8)] }

  /** Everything the hash is fed for an accepted stream. */
  function Transcript(p: Params, ds: seq<Data>, observed: nat): seq<Byte> {
    FlatMap(Framed, Head(p) + FlatMap(DataFrames, ds) + Tail(|ds|, observed))
  }

  // ---- Accepted streams -------------------------------------------------------------

  function Own(packets: seq<Packet>, track: nat): seq<Data> {
    if packets == [] then []
    else
      var last := packets[|packets| - 1];
      Own(packets[..|packets| - 1], track) + if last.track == track then [last.data] else []
  }

  /** A packet that may stand alone: of a sensible size and, for PCM, as many bytes as its frames need. */
  ghost predicate Sound(p: Params, d: Data) {
    && 0 < |d.buf| <= MAX_PACKET_BYTES
    && d.End() < U64
    && (p.pcmWidth.Some? ==> p.channels.Some? && |d.buf| == d.Block() * p.channels.value * p.pcmWidth.value)
  }

  ghost predicate Contiguous(ds: seq<Data>) { forall i :: 0 <= i < |ds| - 1 ==> ds[i + 1].ts == ds[i].End() }

  ghost predicate AllSound(p: Params, ds: seq<Data>) { forall i :: 0 <= i < |ds| ==> Sound(p, ds[i]) }

  ghost predicate Acceptable(p: Params, ds: seq<Data>) {
    && p.frames.Some? && p.frames.value > 0
    && AllSound(p, ds) && Contiguous(ds)
    && ds != [] && ds[|ds| - 1].End() - ds[0].ts == p.frames.value
  }

  ghost predicate WidthIsReal(p: Params) { p.pcmWidth.Some? ==> p.pcmWidth.value > 0 }

  /** Checks of one packet, up to its timing. */
  method CheckPacket(p: Params, d: Data) returns (r: Option<DigestError>)
    requires WidthIsReal(p)
    ensures d.End() < U64 ==> (r == None <==> Sound(p, d))
    ensures r == None ==> 0 < |d.buf| <= MAX_PACKET_BYTES
    ensures r != None ==> !Sound(p, d)
  {
    if d.buf == [] || |d.buf| > MAX_PACKET_BYTES { return Some(BadPacketSize); }
    if p.pcmWidth.Some? {
      if p.channels == None { return Some(NoChannels); }
      var samples := d.Block() * p.channels.value;
      var expected := samples * p.pcmWidth.value;
      Product(samples, p.pcmWidth.value);
      if samples >= U64 || expected >= U64 { return Some(SizeOverflow); }
      if |d.buf| != expected { return Some(Truncated); }
    }
    return None;
  }

  lemma Product(a: nat, b: nat)
    requires b > 0
    ensures a <= a * b
  {
  }

  /** The variables of the accept loop. */
  datatype Progress = Progress(hash: seq<Byte>, count: nat, first: Option<nat>, next: Option<nat>)

  function HashSoFar(p: Params, ds: seq<Data>): seq<Byte> { FlatMap(Framed, Head(p) + FlatMap(DataFrames, ds)) }

  ghost predicate Follows(ds: seq<Data>, d: Data) { ds != [] ==> d.ts == ds[|ds| - 1].End() }

  ghost predicate Tracks(p: Params, s: Progress, ds: seq<Data>) {
    && s.hash == HashSoFar(p, ds) && s.count == |ds|
    && AllSound(p, ds) && Contiguous(ds)
    && if ds == [] then s.first == None && s.next == None
         else s.first == Some(ds[0].ts) && s.next == Some(ds[|ds| - 1].End())
  }

  method HashPacket(p: Params, d: Data, before: seq<Byte>, ghost ds: seq<Data>) returns (hash: seq<Byte>)
    requires before == HashSoFar(p, ds)
    ensures hash == HashSoFar(p, ds + [d])
  {
    hash := before + Framed(LittleEndian(d.ts, 8));
    hash := hash + Framed(LittleEndian(d.dur, 8));
    hash := hash + Framed(LittleEndian(d.trimStart, 4));
    hash := hash + Framed(LittleEndian(d.trimEnd, 4));
    hash := hash + Framed(d.buf);
    PacketFramed(p, ds, d);
  }

  /** One packet of the stream: every check, then its five frames. */
  method AcceptPacket(p: Params, d: Data, s: Progress, ghost ds: seq<Data>) returns (r: Result<Progress, DigestError>)
    requires WidthIsReal(p) && Tracks(p, s, ds)
    ensures r.Ok? <==> Sound(p, d) && Follows(ds, d)
    ensures r.Ok? ==> Tracks(p, r.value, ds + [d])
  {
    var problem := CheckPacket(p, d);
    if problem.Some? { return Err(problem.value); }
    var first := s.first;
    if s.next.Some? {
      if d.ts != s.next.value { return Err(NotContiguous); }
    } else {
      first := Some(d.ts);
    }
    if d.ts + d.Block() >= U64 { return Err(TimeOverflow); }
    var hash := HashPacket(p, d, s.hash, ds);
    ContiguousSnoc(ds, d);
    return Ok(Progress(hash, s.count + 1, first, Some(d.ts + d.Block())));
  }

  lemma ContiguousSnoc(ds: seq<Data>, d: Data)
    requires Contiguous(ds) && Follows(ds, d)
    ensures Contiguous(ds + [d])
  {
    var es := ds + [d];
    forall i | 0 <= i < |es| - 1 ensures es[i + 1].ts == es[i].End() {
      if i < |ds| - 1 { assert ds[i + 1].ts == ds[i].End(); }
    }
  }

  /** The accept loop, over the packets the demuxer gives until the end of the file; the deadline may
      pass or a read may fail at any point. */
  method Digest(playable: seq<Track>, packets: seq<Packet>) returns (r: Result<seq<Byte>, DigestError>,
        ghost disturbed: bool)
    requires forall t :: t in playable ==> WidthIsReal(t.params)
    ensures r.Ok? ==> |playable| == 1 && Acceptable(playable[0].params, Own(packets, playable[0].id))
    ensures r.Ok? ==>
              r.value == Transcript(playable[0].params, Own(packets, playable[0].id), playable[0].params.frames.value)
    ensures !disturbed && |playable| == 1 ==> (r.Ok? <==> Acceptable(playable[0].params, Own(packets, playable[0].id)))
    ensures disturbed ==> r.Err? && r.error in {TooSlow, ReadFailed}
  {
    disturbed := false;
    if |playable| != 1 { return Err(NotOnePlayable), false; }
    var track := playable[0];
    var p := track.params;
    if p.frames == None || p.frames.value == 0 { return Err(NoDeclaredFrames), false; }
    HeadFramed(p);
    var s := Progress(Framed(AsciiBytes(VERSION)) + Framed(p.text), 0, None, None);
    var n := 0;
    ghost var ds: seq<Data> := [];
    while n < |packets|
      invariant 0 <= n <= |packets| && ds == Own(packets[..n], track.id) && Tracks(p, s, ds)
    {
      var late: bool, broken: bool := *, *;
      if late { return Err(TooSlow), true; }
      if broken { return Err(ReadFailed), true; }
      var packet := packets[n];
      OwnNext(packets, n, track.id);
      n := n + 1;
      if packet.track != track.id { continue; }
      var accepted := AcceptPacket(p, packet.data, s, ds);
      if accepted.Err? {
        Refused(p, Own(packets, track.id), ds, packet.data);
        return Err(accepted.error), false;
      }
      s, ds := accepted.value, ds + [packet.data];
    }
    assert packets[..n] == packets;
    var failed: bool, late: bool := *, *;
    if failed { return Err(ReadFailed), true; }
    if late { return Err(TooSlow), true; }
    r := FinishDigest(p, s, ds);
  }

  /** After the last packet: the whole declared interval must have been seen. */
  method FinishDigest(p: Params, s: Progress, ghost ds: seq<Data>) returns (r: Result<seq<Byte>, DigestError>)
    requires Tracks(p, s, ds) && p.frames.Some? && p.frames.value > 0
    ensures r.Ok? <==> Acceptable(p, ds)
    ensures r.Ok? ==> r.value == Transcript(p, ds, p.frames.value)
  {
    if s.first == None { return Err(NoPackets); }
    EndsAfterStart(ds);
    var observed := s.next.value - s.first.value;
    if observed != p.frames.value { return Err(Incomplete); }
    TailFramed(Head(p) + FlatMap(DataFrames, ds), s.count, observed);
    return Ok(s.hash + Framed(LittleEndian(s.count, 8)) + Framed(LittleEndian(observed, 8)));
  }

  lemma OwnNext(packets: seq<Packet>, n: nat, track: nat)
    requires n < |packets|
    ensures Own(packets[..n + 1], track) == Own(packets[..n], track) + if packets[n].track == track
                                                                         then [packets[n].data] else []
    ensures Own(packets[..n + 1], track) <= Own(packets, track)
  {
    assert packets[..n + 1][..n] == packets[..n];
    OwnPrefix(packets, n + 1, track);
  }

  /** A stream that has gone wrong stays wrong. */
  lemma Refused(p: Params, all: seq<Data>, ds: seq<Data>, d: Data)
    requires ds + [d] <= all && !(Sound(p, d) && Follows(ds, d))
    ensures !Acceptable(p, all)
  {
    assert all[|ds|] == (ds + [d])[|ds|] == d;
    if ds != [] {
      assert all[|ds| - 1] == (ds + [d])[|ds| - 1];
      assert Contiguous(all) ==> all[(|ds| - 1) + 1].ts == all[|ds| - 1].End();
    }
  }

  lemma {:induction false} OwnPrefix(packets: seq<Packet>, n: nat, track: nat)
    requires n <= |packets|
    ensures Own(packets[..n], track) <= Own(packets, track)
    decreases |packets|
  {
    if n == |packets| {
      assert packets[..n] == packets;
    } else {
      var front := packets[..|packets| - 1];
      OwnPrefix(front, n, track);
      assert front[..n] == packets[..n];
    }
  }

  lemma HeadFramed(p: Params)
    ensures HashSoFar(p, []) == Framed(AsciiBytes(VERSION)) + Framed(p.text)
  {
    var version: Bytes := AsciiBytes(VERSION);
    var head: seq<Bytes> := [version];
    FlatMapSnoc(Framed, head, p.text);
    FlatMapOne(Framed, version);
    assert Head(p) + FlatMap(DataFrames, []) == head + [p.text];
  }

  lemma PacketFramed(p: Params, ds: seq<Data>, d: Data)
    ensures HashSoFar(p, ds + [d]) ==
            HashSoFar(p, ds) + Framed(LittleEndian(d.ts, 8)) + Framed(LittleEndian(d.dur, 8)) +
            Framed(LittleEndian(d.trimStart, 4)) + Framed(LittleEndian(d.trimEnd, 4)) + Framed(d.buf)
  {
    var frames := Head(p) + FlatMap(DataFrames, ds);
    FlatMapSnoc(DataFrames, ds, d);
    assert Head(p) + (FlatMap(DataFrames, ds) + DataFrames(d)) == frames + DataFrames(d);
    FlatMapFive(Framed, frames, DataFrames(d));
  }

  lemma FlatMapFive<A, B>(f: A -> seq<B>, frames: seq<A>, five: seq<A>)
    requires |five| == 5
    ensures FlatMap(f, frames + five) ==
              FlatMap(f, frames) + f(five[0]) + f(five[1]) + f(five[2]) + f(five[3]) + f(five[4])
  {
    var f1 := frames + [five[0]];
    var f2 := f1 + [five[1]];
    var f3 := f2 + [five[2]];
    var f4 := f3 + [five[3]];
    FlatMapSnoc(f, frames, five[0]);
    FlatMapSnoc(f, f1, five[1]);
    FlatMapSnoc(f, f2, five[2]);
    FlatMapSnoc(f, f3, five[3]);
    FlatMapSnoc(f, f4, five[4]);
    assert frames + five == f4 + [five[4]];
  }

  lemma TailFramed(frames: seq<Bytes>, count: nat, observed: nat)
    ensures FlatMap(Framed, frames + Tail(count, observed)) ==
            FlatMap(Framed, frames) + Framed(LittleEndian(count, 8)) + Framed(LittleEndian(observed, 8))
  {
    var a: Bytes, b: Bytes := LittleEndian(count, 8), LittleEndian(observed, 8);
    FlatMapSnoc(Framed, frames, a);
    FlatMapSnoc(Framed, frames + [a], b);
    assert frames + Tail(count, observed) == frames + [a] + [b];
  }

  // ---- The transcript is unambiguous ------------------------------------------------

  function Power256(width: nat): nat { if width == 0 then 1 else 256 * Power256(width - 1) }

  lemma {:induction false} LittleEndianInjective(a: nat, b: nat, width: nat)
    requires a < Power256(width) && b < Power256(width) && LittleEndian(a, width) == LittleEndian(b, width)
    ensures a == b
    decreases width
  {
    if width > 0 {
      var x, y := LittleEndian(a, width), LittleEndian(b, width);
      assert x[0] == a % 256 && y[0] == b % 256;
      assert x[1..] == LittleEndian(a / 256, width - 1) && y[1..] == LittleEndian(b / 256, width - 1);
      LittleEndianInjective(a / 256, b / 256, width - 1);
    }
  }

  lemma Widths()
    ensures Power256(4) == U32 && Power256(8) == U64
  {
    assert Power256(2) == 65536;
    assert Power256(4) == 256 * (256 * Power256(2));
    assert Power256(6) == 256 * (256 * Power256(4));
  }

  /** Framing can be undone from the front: equal texts start with equal frames. */
  lemma FirstFrame(a: Bytes, b: Bytes, restA: seq<Byte>, restB: seq<Byte>)
    requires Framed(a) + restA == Framed(b) + restB
    ensures a == b && restA == restB
  {
    var s, t := Framed(a) + restA, Framed(b) + restB;
    assert s[..8] == LittleEndian(|a|, 8) && t[..8] == LittleEndian(|b|, 8);
    Widths();
    LittleEndianInjective(|a|, |b|, 8);
    assert s[8..8 + |a|] == a && t[8..8 + |b|] == b;
    assert s[8 + |a|..] == restA && t[8 + |b|..] == restB;
  }

  lemma FramedDecodable()
    ensures Decodable(Framed)
  {
    forall a: Bytes ensures Framed(a) != [] { assert |Framed(a)| == 8 + |a|; }
    forall a: Bytes, b: Bytes, s: seq<Byte>, t: seq<Byte> ensures ReadsOff(Framed, a, b, s, t) {
      if Framed(a) + s == Framed(b) + t { FirstFrame(a, b, s, t); }
    }
  }

  lemma DataFramesInjective(a: Data, b: Data)
    requires DataFrames(a) == DataFrames(b)
    ensures a == b
  {
    Widths();
    var x, y := DataFrames(a), DataFrames(b);
    assert x[0] == y[0] && x[1] == y[1] && x[2] == y[2] && x[3] == y[3] && x[4] == y[4];
    LittleEndianInjective(a.ts, b.ts, 8);
    LittleEndianInjective(a.dur, b.dur, 8);
    LittleEndianInjective(a.trimStart, b.trimStart, 4);
    LittleEndianInjective(a.trimEnd, b.trimEnd, 4);
  }

  lemma DataDecodable()
    ensures Decodable(DataFrames)
  {
    forall a: Data, b: Data, s: seq<Bytes>, t: seq<Bytes> ensures ReadsOff(DataFrames, a, b, s, t) {
      var x, y := DataFrames(a) + s, DataFrames(b) + t;
      if x == y {
        assert x[..5] == DataFrames(a) && y[..5] == DataFrames(b) && x[5..] == s && y[5..] == t;
        DataFramesInjective(a, b);
      }
    }
  }

  lemma {:induction false} FlatMapFiveLength(ds: seq<Data>)
    ensures |FlatMap(DataFrames, ds)| == 5 * |ds|
  {
    if ds != [] { FlatMapFiveLength(ds[1..]); }
  }

  /** Two streams with the same transcript have the same codec parameters and the same packets:
      length-prefixed framing is unambiguous over whole runs. */
  lemma TranscriptInjective(p: Params, ds: seq<Data>, n: nat, q: Params, es: seq<Data>, m: nat)
    requires Transcript(p, ds, n) == Transcript(q, es, m)
    ensures p.text == q.text && ds == es
  {
    var a, b := FlatMap(DataFrames, ds), FlatMap(DataFrames, es);
    FramedDecodable();
    FlatMapInjective(Framed, Head(p) + a + Tail(|ds|, n), Head(q) + b + Tail(|es|, m));
    FlatMapFiveLength(ds);
    FlatMapFiveLength(es);
    Middle(Head(p), a, Tail(|ds|, n), Head(q), b, Tail(|es|, m));
    DataDecodable();
    FlatMapInjective(DataFrames, ds, es);
  }

  lemma Middle<T>(h: seq<T>, a: seq<T>, t: seq<T>, i: seq<T>, b: seq<T>, u: seq<T>)
    requires h + a + t == i + b + u && |h| == |i| == 2 && |t| == |u| == 2
    ensures h[1] == i[1] && a == b
  {
    var x, y := h + a + t, i + b + u;
    assert |x| == |a| + 4 && |y| == |b| + 4;
    assert x[1] == h[1] && y[1] == i[1];
    assert x[2..2 + |a|] == a && y[2..2 + |b|] == b;
  }

  // ---- Accepted streams are whole ---------------------------------------------------

  lemma {:induction false} EndsAfterStart(ds: seq<Data>)
    requires Contiguous(ds) && ds != []
    ensures ds[0].ts <= ds[|ds| - 1].End()
  {
    if |ds| > 1 {
      EndsAfterStart(ds[..|ds| - 1]);
      assert ds[(|ds| - 2) + 1].ts == ds[|ds| - 2].End();
    }
  }

  /** Packet `i` holds frame `f`. */
  ghost predicate Holds(ds: seq<Data>, i: nat, f: nat)
    requires i < |ds|
  {
    ds[i].ts <= f < ds[i].End()
  }

  lemma {:induction false} InOrder(ds: seq<Data>, i: nat, j: nat)
    requires Contiguous(ds) && i < j < |ds|
    ensures ds[i].End() <= ds[j].ts
    decreases j
  {
    assert ds[(j - 1) + 1].ts == ds[j - 1].End();
    if i < j - 1 { InOrder(ds, i, j - 1); }
  }

  lemma {:induction false} FrameIsHeld(ds: seq<Data>, f: nat)
    requires Contiguous(ds) && ds != [] && ds[0].ts <= f < ds[|ds| - 1].End()
    ensures exists i :: 0 <= i < |ds| && Holds(ds, i, f)
  {
    if f >= ds[|ds| - 1].ts {
      assert Holds(ds, |ds| - 1, f);
    } else {
      var front := ds[..|ds| - 1];
      assert ds[(|ds| - 2) + 1].ts == ds[|ds| - 2].End();
      FrameIsHeld(front, f);
      var i: nat :| i < |front| && Holds(front, i, f);
      assert Holds(ds, i, f);
    }
  }

  /** The packets of an accepted stream tile the declared frames: each is in exactly one packet, and no
      packet holds any other. */
  lemma PacketsTile(p: Params, ds: seq<Data>, f: nat)
    requires Acceptable(p, ds)
    ensures (exists i :: 0 <= i < |ds| && Holds(ds, i, f)) <==> ds[0].ts <= f < ds[0].ts + p.frames.value
    ensures forall i, j :: 0 <= i < |ds| && 0 <= j < |ds| && Holds(ds, i, f) && Holds(ds, j, f) ==> i == j
  {
    if ds[0].ts <= f < ds[0].ts + p.frames.value { FrameIsHeld(ds, f); }
    forall i | 0 <= i < |ds| && Holds(ds, i, f) ensures ds[0].ts <= f < ds[0].ts + p.frames.value {
      if i > 0 { InOrder(ds, 0, i); }
      if i < |ds| - 1 { InOrder(ds, i, |ds| - 1); }
    }
    forall i, j | 0 <= i < |ds| && 0 <= j < |ds| && Holds(ds, i, f) && Holds(ds, j, f) ensures i == j {
      if i < j { InOrder(ds, i, j); }
      if j < i { InOrder(ds, j, i); }
    }
  }

  function TotalBytes(ds: seq<Data>): nat {
    if ds == [] then 0 else TotalBytes(ds[..|ds| - 1]) + |ds[|ds| - 1].buf|
  }

  lemma {:induction false} BytesByFrames(p: Params, ds: seq<Data>)
    requires AllSound(p, ds) && Contiguous(ds) && ds != [] && p.pcmWidth.Some? && p.channels.Some?
    ensures TotalBytes(ds) == (ds[|ds| - 1].End() - ds[0].ts) * p.channels.value * p.pcmWidth.value
  {
    var n, c, w := |ds| - 1, p.channels.value, p.pcmWidth.value;
    assert Sound(p, ds[n]);
    if n == 0 {
      assert ds[..0] == [];
      assert TotalBytes(ds[..0]) == 0;
    } else {
      BytesByFrames(p, ds[..n]);
      assert ds[(n - 1) + 1].ts == ds[n - 1].End();
      Distribute(ds[n - 1].End() - ds[0].ts, ds[n].Block(), c, w);
    }
  }

  lemma Distribute(a: int, b: int, c: int, w: int)
    ensures a * c * w + b * c * w == (a + b) * c * w
  {
    assert (a + b) * c == a * c + b * c;
  }

  /** A PCM stream that is accepted has exactly frames times channels times width bytes of samples. */
  lemma PcmBytes(p: Params, ds: seq<Data>)
    requires Acceptable(p, ds) && p.pcmWidth.Some?
    ensures p.channels.Some? && TotalBytes(ds) == p.frames.value * p.channels.value * p.pcmWidth.value
  {
    assert Sound(p, ds[0]);
    BytesByFrames(p, ds);
  }

  /** What is left of an accepted stream cut short is accepted exactly when nothing that lasts was cut. */
  lemma CutShort(p: Params, ds: seq<Data>, k: nat)
    requires Acceptable(p, ds) && k < |ds|
    ensures Acceptable(p, ds[..k]) <==> k > 0 && forall i :: k <= i < |ds| ==> ds[i].Block() == 0
  {
    if k > 0 {
      assert ds[(k - 1) + 1].ts == ds[k - 1].End();
      if Acceptable(p, ds[..k]) {
        forall i | k <= i < |ds| ensures ds[i].Block() == 0 {
          InOrder(ds, k - 1, i);
          if i < |ds| - 1 { InOrder(ds, i, |ds| - 1); }
        }
      }
      if forall i :: k <= i < |ds| ==> ds[i].Block() == 0 { ZeroBlocks(ds, k); }
    }
  }

  lemma {:induction false} ZeroBlocks(ds: seq<Data>, k: nat)
    requires Contiguous(ds) && 0 < k < |ds| && forall i :: k <= i < |ds| ==> ds[i].Block() == 0
    ensures ds[|ds| - 1].End() == ds[k - 1].End()
  {
    var n := |ds| - 1;
    assert ds[(n - 1) + 1].ts == ds[n - 1].End();
    if k < n { ZeroBlocks(ds[..n], k); }
  }

  // ---- In numbers and bytes ---------------------------------------------------------

  /** The number some bytes write, least significant first. */
  ghost function Decoded(bytes: seq<Byte>): nat {
    if bytes == [] then 0 else bytes[0] + 256 * Decoded(bytes[1..])
  }

  lemma {:induction false} LittleEndianMeaning(n: nat, width: nat)
    requires n < Power256(width)
    ensures Decoded(LittleEndian(n, width)) == n
    decreases width
  {
    if width > 0 {
      LittleEndianMeaning(n / 256, width - 1);
      assert LittleEndian(n, width)[1..] == LittleEndian(n / 256, width - 1);
    }
  }

  /** A frame is its length in eight bytes, least significant first, and then the bytes. */
  lemma FramedMeaning(bytes: Bytes)
    ensures |Framed(bytes)| == 8 + |bytes| && Framed(bytes)[8..] == bytes && Decoded(Framed(bytes)[..8]) == |bytes|
  {
    Widths();
    LittleEndianMeaning(|bytes|, 8);
    assert Framed(bytes)[..8] == LittleEndian(|bytes|, 8);
  }

  /** The frames before the packets. */
  lemma HeadMeaning(p: Params)
    ensures |Head(p)| == 2 && Head(p)[1] == p.text && |Head(p)[0]| == |"musicata-audio-packet-digest-v1"|
    ensures forall i :: 0 <= i < |Head(p)[0]| ==> Head(p)[0][i] == "musicata-audio-packet-digest-v1"[i] as int
  {
  }

  /** How long a packet lasts with its trims, in the 64 bits it is counted in. */
  ghost function Lasts(d: Data): nat { (d.dur + d.trimStart + d.trimEnd) % 0x1_0000_0000_0000_0000 }

  /** A stream is acceptable exactly when it declares a positive number of frames and its packets, none
      empty or above eight mebibytes and all of the bytes the codec needs, follow each other without a
      gap or an overlap and last that number of frames together. */
  lemma AcceptableMeaning(p: Params, ds: seq<Data>)
    ensures Acceptable(p, ds) <==>
              && p.frames.Some? && p.frames.value > 0 && ds != []
              && (forall i :: 0 <= i < |ds| ==>
                    1 <= |ds[i].buf| <= 8388608 && ds[i].ts + Lasts(ds[i]) < 0x1_0000_0000_0000_0000)
              && (p.pcmWidth.Some? ==>
                    && p.channels.Some?
                    && forall i :: 0 <= i < |ds| ==> |ds[i].buf| == Lasts(ds[i]) * p.channels.value * p.pcmWidth.value)
              && (forall i :: 0 <= i < |ds| - 1 ==> ds[i + 1].ts == ds[i].ts + Lasts(ds[i]))
              && ds[|ds| - 1].ts + Lasts(ds[|ds| - 1]) - ds[0].ts == p.frames.value
  {
    forall i | 0 <= i < |ds| ensures ds[i].End() == ds[i].ts + Lasts(ds[i]) {}
    if ds != [] { assert AllSound(p, ds) ==> Sound(p, ds[0]); }
  }

  /** The packets of a track are its own ones in the order they came. */
  lemma {:induction false} OwnMeaning(packets: seq<Packet>, track: nat, n: nat)
    requires n < |packets|
    ensures |Own(packets[..n], track)| <= |Own(packets, track)|
    ensures packets[n].track == track ==>
              |Own(packets[..n], track)| < |Own(packets, track)| &&
                  Own(packets, track)[|Own(packets[..n], track)|] == packets[n].data
    ensures packets[n].track != track ==> Own(packets[..n + 1], track) == Own(packets[..n], track)
  {
    OwnNext(packets, n, track);
    var before, after, all := Own(packets[..n], track), Own(packets[..n + 1], track), Own(packets, track);
    assert after <= all;
    if packets[n].track == track { assert all[|before|] == after[|before|]; }
  }
}
