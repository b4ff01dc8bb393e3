/**
 * Frames on a byte stream. Both sides collect a frame of fixed size from whatever pieces
 * the stream delivers; the frames that come out are the frames that went in.
 */
module Framing {
  import opened Config

  type byte = x: int | 0 <= x < 0x100
  type Bytes = seq<byte>

  // A command byte and a big-endian 32-bit task id.
  const HEADER_SIZE: nat := 5

  // ---------- task ids in network order ----------

  function ToBigEndian(id: nat): (b: Bytes)
    requires id < 0x1_0000_0000
    ensures |b| == 4
  {
    [id / 0x100_0000, id / 0x1_0000 % 0x100, id / 0x100 % 0x100, id % 0x100]
  }

  function FromBigEndian(b: Bytes): (id: nat)
    requires |b| == 4
    ensures id < 0x1_0000_0000
  {
    (b[0] as int) * 0x100_0000 + (b[1] as int) * 0x1_0000 + (b[2] as int) * 0x100 + b[3]
  }

  /** A number as its upper part and its last byte. */
  lemma LastByte(n: nat, q: nat, r: nat)
    requires n == 0x100 * q + r && r < 0x100
    ensures n / 0x100 == q && n % 0x100 == r
  {
  }

  /** Taking off two bytes, or three, is taking off one again and again. */
  lemma UpperBytes(n: nat)
    ensures n / 0x100 / 0x100 == n / 0x1_0000
    ensures n / 0x100 / 0x100 / 0x100 == n / 0x100_0000
  {
  }

  lemma NumberRoundTrip(id: nat)
    requires id < 0x1_0000_0000
    ensures FromBigEndian(ToBigEndian(id)) == id
  {
    UpperBytes(id);
    var q1, q2, q3 := id / 0x100, id / 0x1_0000, id / 0x100_0000;
    assert id == 0x100 * q1 + id % 0x100 && q1 == 0x100 * q2 + q1 % 0x100 && q2 == 0x100 * q3 + q2 % 0x100;
  }

  lemma BytesRoundTrip(b: Bytes)
    requires |b| == 4
    ensures ToBigEndian(FromBigEndian(b)) == b
  {
    var n := FromBigEndian(b);
    var n2: nat := 0x100 * (b[0] as nat) + b[1];
    var n1 := 0x100 * n2 + b[2];
    assert n == 0x100 * n1 + b[3];
    LastByte(n, n1, b[3]);
    LastByte(n1, n2, b[2]);
    LastByte(n2, b[0], b[1]);
    UpperBytes(n);
  }

  /** Network order: appending a last byte to the number appends it to the bytes, and the first
      byte falls out. */
  lemma NetworkOrder(q: nat, r: byte)
    requires 0x100 * q + r < 0x1_0000_0000
    ensures ToBigEndian(0x100 * q + r) == ToBigEndian(q)[1..] + [r]
  {
    LastByte(0x100 * q + r, q, r);
    UpperBytes(0x100 * q + r);
    UpperBytes(q);
    var q1, q2 := q / 0x100, q / 0x1_0000;
    assert q1 % 0x100 == q / 0x100 % 0x100;
  }

  /** Read from the wire, the first byte weighs most. */
  lemma ByteWeights(b: Bytes)
    requires |b| == 4
    ensures FromBigEndian(b) == 16777216 * (b[0] as int) + 65536 * (b[1] as int) + 256 * (b[2] as int) + b[3]
    ensures FromBigEndian(b) == 256 * FromBigEndian([0] + b[..3]) + b[3]
  {
  }

  /** Task ids survive the wire in both directions, for every 32-bit value. */
  lemma BigEndianRoundTrip(id: nat, b: Bytes)
    requires id < 0x1_0000_0000 && |b| == 4
    ensures FromBigEndian(ToBigEndian(id)) == id
    ensures ToBigEndian(FromBigEndian(b)) == b
  {
    hide ToBigEndian, FromBigEndian;
    NumberRoundTrip(id);
    BytesRoundTrip(b);
  }

  // ---------- one frame ----------

  predicate WellFormed(f: Frame<Bytes>, size: nat) {
    f.cmd < 0x100 && f.id < 0x1_0000_0000 && |f.payload| == size
  }

  function Encode(f: Frame<Bytes>, size: nat): (b: Bytes)
    requires WellFormed(f, size)
    ensures |b| == HEADER_SIZE + size
  {
    [f.cmd] + ToBigEndian(f.id) + f.payload
  }

  function Decode(b: Bytes, size: nat): (f: Frame<Bytes>)
    requires |b| == HEADER_SIZE + size
    ensures WellFormed(f, size)
  {
    Frame(b[0], FromBigEndian(b[1..5]), b[5..])
  }

  /** What is on the wire: one byte of command, the number in four bytes with the highest first,
      then the payload. */
  lemma WireLayout(f: Frame<Bytes>, size: nat)
    requires WellFormed(f, size)
    ensures var b := Encode(f, size);
      && |b| == 5 + size && b[0] == f.cmd && b[5..] == f.payload
      && 16777216 * (b[1] as int) + 65536 * (b[2] as int) + 256 * (b[3] as int) + b[4] == f.id
  {
    hide ToBigEndian, FromBigEndian;
    BigEndianRoundTrip(f.id, ToBigEndian(f.id));
    ByteWeights(ToBigEndian(f.id));
    var n := ToBigEndian(f.id);
    var b := Encode(f, size);
    assert b[1] == n[0] && b[2] == n[1] && b[3] == n[2] && b[4] == n[3];
  }

  /** Decoding undoes encoding, and encoding undoes decoding. */
  lemma FrameRoundTrip(f: Frame<Bytes>, b: Bytes, size: nat)
    requires WellFormed(f, size) && |b| == HEADER_SIZE + size
    ensures Decode(Encode(f, size), size) == f
    ensures Encode(Decode(b, size), size) == b
  {
    BigEndianRoundTrip(f.id, b[1..5]);
    assert Encode(f, size)[1..5] == ToBigEndian(f.id);
    assert Encode(f, size)[5..] == f.payload;
    assert b == [b[0]] + b[1..5] + b[5..];
  }

  // ---------- streams ----------

  function EncodeAll(fs: seq<Frame<Bytes>>, size: nat): Bytes
    requires forall k :: 0 <= k < |fs| ==> WellFormed(fs[k], size)
  {
    if fs == [] then [] else Encode(fs[0], size) + EncodeAll(fs[1..], size)
  }

  datatype Feed = Feed(residue: Bytes, frames: seq<Frame<Bytes>>)

  /** One successful read: the buffered bytes, and the frame it completed if any. */
  function Accept(residue: Bytes, chunk: Bytes, size: nat): (r: Feed)
    requires |residue| + |chunk| <= HEADER_SIZE + size
    ensures |r.frames| <= 1
  {
    if |residue| + |chunk| == HEADER_SIZE + size then Feed([], [Decode(residue + chunk, size)])
    else Feed(residue + chunk, [])
  }

  /** What recv guarantees about every piece: not empty, and no more than was asked for. */
  predicate Fits(residue: Bytes, chunks: seq<Bytes>, size: nat)
    decreases |chunks|
  {
    chunks != [] ==>
      0 < |chunks[0]| <= HEADER_SIZE + size - |residue| && Fits(Accept(residue, chunks[0], size).residue, chunks[1..], size)
  }

  /** How many bytes came before piece k. */
  function Before(chunks: seq<Bytes>, k: nat): nat
    requires k <= |chunks|
  {
    if k == 0 then 0 else Before(chunks, k - 1) + |chunks[k - 1]|
  }

  lemma {:induction false} BeforeShift(chunks: seq<Bytes>, k: nat)
    requires chunks != [] && k <= |chunks[1..]|
    ensures Before(chunks, k + 1) == |chunks[0]| + Before(chunks[1..], k)
  {
    if k > 0 {
      BeforeShift(chunks, k - 1);
    }
  }

  /** Where frame m of a stream of frames of n bytes begins. */
  function FrameStart(m: nat, n: nat): nat {
    m * n
  }

  /** These bytes are there, and belong to one frame. */
  ghost predicate WithinOneFrame(from: nat, to: nat, n: nat) {
    exists m: nat :: FrameStart(m, n) <= from < to <= FrameStart(m, n) + n
  }

  lemma FrameShift(from: nat, to: nat, n: nat)
    requires n > 0
    ensures WithinOneFrame(from + n, to + n, n) <==> WithinOneFrame(from, to, n)
  {
    if m: nat :| FrameStart(m, n) <= from < to <= FrameStart(m, n) + n {
      assert FrameStart(m + 1, n) == FrameStart(m, n) + n;
    }
    if m: nat :| FrameStart(m, n) <= from + n < to + n <= FrameStart(m, n) + n {
      assert FrameStart(0, n) == 0;
      var l: nat := m - 1;
      assert FrameStart(m, n) == FrameStart(l, n) + n;
    }
  }

  lemma LaterFrame(m: nat, n: nat)
    ensures m > 0 ==> FrameStart(m, n) >= n
  {
    if m > 0 {
      var l: nat := m - 1;
      assert FrameStart(m, n) == FrameStart(l, n) + n;
    }
  }

  lemma FirstFrame(from: nat, to: nat, n: nat)
    requires from < n
    ensures WithinOneFrame(from, to, n) <==> from < to <= n
  {
    assert FrameStart(0, n) == 0;
    if m: nat :| FrameStart(m, n) <= from < to <= FrameStart(m, n) + n {
      LaterFrame(m, n);
    }
  }

  /** Piece k, which begins where those before it end, belongs to one frame; `held` bytes of the
      first frame are there already. */
  ghost predicate PieceFits(held: nat, chunks: seq<Bytes>, k: nat, n: nat)
    requires k < |chunks|
  {
    WithinOneFrame(held + Before(chunks, k), held + Before(chunks, k) + |chunks[k]|, n)
  }

  ghost predicate AllFit(held: nat, chunks: seq<Bytes>, n: nat) {
    forall k :: 0 <= k < |chunks| ==> PieceFits(held, chunks, k, n)
  }

  lemma NextPieceFits(held: nat, chunks: seq<Bytes>, later: nat, k: nat, n: nat)
    requires n > 0 && chunks != [] && k < |chunks[1..]| && held + |chunks[0]| <= n
    requires later == if held + |chunks[0]| == n then 0 else held + |chunks[0]|
    ensures PieceFits(held, chunks, k + 1, n) <==> PieceFits(later, chunks[1..], k, n)
  {
    hide WithinOneFrame;
    BeforeShift(chunks, k);
    FrameShift(later + Before(chunks[1..], k), later + Before(chunks[1..], k) + |chunks[1..][k]|, n);
  }

  /** All pieces fit if the first does and the others do, seen from where the first ends. */
  lemma OneFurther(held: nat, chunks: seq<Bytes>, later: nat, n: nat)
    requires n > 0 && chunks != [] && held + |chunks[0]| <= n
    requires later == if held + |chunks[0]| == n then 0 else held + |chunks[0]|
    ensures AllFit(held, chunks, n) <==> PieceFits(held, chunks, 0, n) && AllFit(later, chunks[1..], n)
  {
    hide PieceFits, Before;
    forall k | 0 <= k < |chunks[1..]|
      ensures PieceFits(held, chunks, k + 1, n) <==> PieceFits(later, chunks[1..], k, n)
    {
      NextPieceFits(held, chunks, later, k, n);
    }
    forall k | 0 < k < |chunks|
      ensures PieceFits(held, chunks, k, n) <==> PieceFits(later, chunks[1..], k - 1, n)
    {
      NextPieceFits(held, chunks, later, k - 1, n);
    }
  }

  /** The pieces admitted are exactly those that are not empty and do not reach beyond the end
      of the frame they begin in; there is no other condition on how a stream is cut. */
  lemma {:induction false} AnyCutFits(residue: Bytes, chunks: seq<Bytes>, size: nat)
    requires |residue| < 5 + size
    ensures Fits(residue, chunks, size) <==> AllFit(|residue|, chunks, 5 + size)
    decreases |chunks|
  {
    hide PieceFits, Before, Decode;
    if chunks != [] {
      var n := 5 + size;
      FirstPieceFits(|residue|, chunks, n);
      if 0 < |chunks[0]| <= n - |residue| {
        var later := Accept(residue, chunks[0], size).residue;
        AnyCutFits(later, chunks[1..], size);
        OneFurther(|residue|, chunks, |later|, n);
      }
    }
  }

  lemma FirstPieceFits(held: nat, chunks: seq<Bytes>, n: nat)
    requires held < n && chunks != []
    ensures PieceFits(held, chunks, 0, n) <==> 0 < |chunks[0]| <= n - held
  {
    hide WithinOneFrame;
    FirstFrame(held, held + |chunks[0]|, n);
  }

  function AcceptAll(residue: Bytes, chunks: seq<Bytes>, size: nat): Feed
    requires Fits(residue, chunks, size)
    decreases |chunks|
  {
    if chunks == [] then Feed(residue, [])
    else
      var first := Accept(residue, chunks[0], size);
      var rest := AcceptAll(first.residue, chunks[1..], size);
      Feed(rest.residue, first.frames + rest.frames)
  }

  function Concat(chunks: seq<Bytes>): Bytes {
    if chunks == [] then [] else chunks[0] + Concat(chunks[1..])
  }

  lemma {:induction false} AcceptAllWellFormed(residue: Bytes, chunks: seq<Bytes>, size: nat)
    requires Fits(residue, chunks, size) && |residue| < HEADER_SIZE + size
    ensures var r := AcceptAll(residue, chunks, size);
      |r.residue| < HEADER_SIZE + size && forall k :: 0 <= k < |r.frames| ==> WellFormed(r.frames[k], size)
    decreases |chunks|
  {
    if chunks != [] {
      AcceptAllWellFormed(Accept(residue, chunks[0], size).residue, chunks[1..], size);
    }
  }

  /** No byte is lost, invented or reordered: whatever the pieces are, the decoded frames
      followed by the residue are exactly the bytes that arrived. */
  lemma {:induction false} NothingLost(residue: Bytes, chunks: seq<Bytes>, size: nat)
    requires Fits(residue, chunks, size) && |residue| < HEADER_SIZE + size
    ensures var r := AcceptAll(residue, chunks, size);
      && (forall k :: 0 <= k < |r.frames| ==> WellFormed(r.frames[k], size))
      && EncodeAll(r.frames, size) + r.residue == residue + Concat(chunks)
    decreases |chunks|
  {
    AcceptAllWellFormed(residue, chunks, size);
    if chunks == [] {
      assert residue + [] == residue;
    } else {
      var first := Accept(residue, chunks[0], size);
      AcceptAllWellFormed(first.residue, chunks[1..], size);
      NothingLost(first.residue, chunks[1..], size);
      var rest := AcceptAll(first.residue, chunks[1..], size);
      assert residue + Concat(chunks) == (residue + chunks[0]) + Concat(chunks[1..]);
      FrontFrame(residue + chunks[0], first, rest, Concat(chunks[1..]), size);
    }
  }

  /** Putting the first piece's frame, if it completed one, in front of the later ones. */
  lemma FrontFrame(b: Bytes, first: Feed, rest: Feed, later: Bytes, size: nat)
    requires |b| <= HEADER_SIZE + size
    requires first == if |b| == HEADER_SIZE + size then Feed([], [Decode(b, size)]) else Feed(b, [])
    requires forall k :: 0 <= k < |rest.frames| ==> WellFormed(rest.frames[k], size)
    requires EncodeAll(rest.frames, size) + rest.residue == first.residue + later
    ensures forall k :: 0 <= k < |first.frames + rest.frames| ==> WellFormed((first.frames + rest.frames)[k], size)
    ensures EncodeAll(first.frames + rest.frames, size) + rest.residue == b + later
  {
    hide Encode, Decode, WellFormed;
    if first.frames == [] {
      assert first.frames + rest.frames == rest.frames;
    } else {
      FrameRoundTrip(first.frames[0], b, size);
      assert (first.frames + rest.frames)[1..] == rest.frames;
      assert EncodeAll(first.frames + rest.frames, size) == b + EncodeAll(rest.frames, size);
      assert (b + EncodeAll(rest.frames, size)) + rest.residue == b + (EncodeAll(rest.frames, size) + rest.residue);
      assert [] + later == later;
    }
  }

  /** Two streams that agree and start with pieces of the same length agree piece by piece. */
  lemma SameCut(a: Bytes, x: Bytes, c: Bytes, y: Bytes)
    requires a + x == c + y && |a| == |c|
    ensures a == c && x == y
  {
    assert a == (a + x)[..|a|] == (c + y)[..|c|] == c;
    assert x == (a + x)[|a|..] == (c + y)[|c|..] == y;
  }

  /** Two streams that start with a frame start with the same one, and go on alike. */
  lemma SameFirst(f: Frame<Bytes>, x: Bytes, g: Frame<Bytes>, y: Bytes, size: nat)
    requires WellFormed(f, size) && WellFormed(g, size)
    requires Encode(f, size) + x == Encode(g, size) + y
    ensures f == g && x == y
  {
    hide Encode, Decode, WellFormed;
    var a, c := Encode(f, size), Encode(g, size);
    SameCut(a, x, c, y);
    FrameRoundTrip(f, a, size);
    FrameRoundTrip(g, a, size);
  }

  lemma TailWellFormed(fs: seq<Frame<Bytes>>, size: nat)
    requires fs != [] && forall k :: 0 <= k < |fs| ==> WellFormed(fs[k], size)
    ensures forall k :: 0 <= k < |fs[1..]| ==> WellFormed(fs[1..][k], size)
  {
  }

  lemma RegroupTail(a: Bytes, b: Bytes, r: Bytes, t: Bytes)
    ensures (a + b) + r + t == a + (b + r + t)
  {
  }

  /** A prefix found behind equal heads. */
  lemma PrefixCons<A>(fs: seq<A>, gs: seq<A>)
    requires fs != [] && gs != [] && fs[0] == gs[0]
    requires |fs[1..]| <= |gs[1..]| && fs[1..] == gs[1..][..|fs[1..]|]
    ensures |fs| <= |gs| && fs == gs[..|fs|] && gs[1..][|fs[1..]|..] == gs[|fs|..]
  {
    assert fs == [fs[0]] + fs[1..] && gs[..|fs|] == [gs[0]] + gs[1..][..|fs| - 1];
  }

  /** A stream of frames can be read in one way only. */
  lemma {:induction false} StreamDetermined(fs: seq<Frame<Bytes>>, gs: seq<Frame<Bytes>>, r: Bytes, t: Bytes, size: nat)
    requires forall k :: 0 <= k < |fs| ==> WellFormed(fs[k], size)
    requires forall k :: 0 <= k < |gs| ==> WellFormed(gs[k], size)
    requires |r| < HEADER_SIZE + size
    requires EncodeAll(fs, size) + r + t == EncodeAll(gs, size)
    ensures |fs| <= |gs| && fs == gs[..|fs|] && r + t == EncodeAll(gs[|fs|..], size)
  {
    hide Encode, Decode, WellFormed;
    if fs == [] {
      assert EncodeAll(fs, size) + r + t == r + t;
      assert gs[0..] == gs;
    } else {
      TailWellFormed(fs, size);
      var a, b := Encode(fs[0], size), EncodeAll(fs[1..], size);
      RegroupTail(a, b, r, t);
      assert gs != [];
      TailWellFormed(gs, size);
      SameFirst(fs[0], b + r + t, gs[0], EncodeAll(gs[1..], size), size);
      StreamDetermined(fs[1..], gs[1..], r, t, size);
      PrefixCons(fs, gs);
    }
  }

  /** For every chunking of a stream of frames, the receiver has decoded exactly the first
      frames of the stream, and its buffer holds exactly the part of the next that arrived. */
  lemma EveryChunking(sent: seq<Frame<Bytes>>, chunks: seq<Bytes>, pending: Bytes, size: nat)
    requires forall k :: 0 <= k < |sent| ==> WellFormed(sent[k], size)
    requires Fits([], chunks, size)
    requires Concat(chunks) + pending == EncodeAll(sent, size)
    ensures var r := AcceptAll([], chunks, size);
      && |r.frames| <= |sent| && r.frames == sent[..|r.frames|]
      && r.residue + pending == EncodeAll(sent[|r.frames|..], size)
      && |r.residue| < HEADER_SIZE + size
  {
    var r := AcceptAll([], chunks, size);
    AcceptAllWellFormed([], chunks, size);
    NothingLost([], chunks, size);
    assert [] + Concat(chunks) == Concat(chunks);
    StreamDetermined(r.frames, sent, r.residue, pending, size);
  }

  /** Once the whole stream has arrived, all frames have, and the buffer is empty. */
  lemma WholeStream(sent: seq<Frame<Bytes>>, chunks: seq<Bytes>, size: nat)
    requires forall k :: 0 <= k < |sent| ==> WellFormed(sent[k], size)
    requires Fits([], chunks, size) && Concat(chunks) == EncodeAll(sent, size)
    ensures AcceptAll([], chunks, size) == Feed([], sent)
  {
    var r := AcceptAll([], chunks, size);
    assert Concat(chunks) + [] == Concat(chunks);
    EveryChunking(sent, chunks, [], size);
    assert r.residue + [] == r.residue;
    AtLeastAFrame(sent[|r.frames|..], size);
    assert sent == sent[..|r.frames|] + sent[|r.frames|..];
  }

  lemma AtLeastAFrame(fs: seq<Frame<Bytes>>, size: nat)
    requires forall k :: 0 <= k < |fs| ==> WellFormed(fs[k], size)
    ensures fs != [] ==> |EncodeAll(fs, size)| >= HEADER_SIZE + size
  {
  }

  // ---------- the link as the cluster sees it ----------

  /** Bytes buffered and bytes on the wire that together are the given frames. */
  ghost predicate Carries(residue: Bytes, wire: Bytes, frames: seq<Frame<Bytes>>, size: nat) {
    && |residue| < HEADER_SIZE + size
    && (forall k :: 0 <= k < |frames| ==> WellFormed(frames[k], size))
    && residue + wire == EncodeAll(frames, size)
  }

  /** Reading any piece either leaves the queue of frames as it is or takes its head: the byte
      link is the first-in-first-out queue the cluster model uses. */
  lemma ReadIsFifo(residue: Bytes, wire: Bytes, frames: seq<Frame<Bytes>>, size: nat, n: nat)
    requires Carries(residue, wire, frames, size)
    requires 0 < n <= |wire| && n <= HEADER_SIZE + size - |residue|
    ensures var r := Accept(residue, wire[..n], size);
      || (r.frames == [] && Carries(r.residue, wire[n..], frames, size))
      || (frames != [] && r.frames == [frames[0]] && r.residue == [] && Carries([], wire[n..], frames[1..], size))
  {
    var r := Accept(residue, wire[..n], size);
    assert wire == wire[..n] + wire[n..];
    assert residue + wire == (residue + wire[..n]) + wire[n..];
    if r.frames != [] {
      var b := residue + wire[..n];
      assert frames != [];
      var c, d := Encode(frames[0], size), EncodeAll(frames[1..], size);
      SameCut(b, wire[n..], c, d);
      FrameRoundTrip(frames[0], b, size);
      assert [] + wire[n..] == wire[n..];
    }
  }

  /** Sending appends to the queue. */
  lemma {:induction false} SendIsFifo(residue: Bytes, wire: Bytes, frames: seq<Frame<Bytes>>, size: nat, f: Frame<Bytes>)
    requires Carries(residue, wire, frames, size) && WellFormed(f, size)
    ensures Carries(residue, wire + Encode(f, size), frames + [f], size)
  {
    EncodeAppend(frames, f, size);
    assert residue + (wire + Encode(f, size)) == (residue + wire) + Encode(f, size);
  }

  lemma {:induction false} EncodeAppend(fs: seq<Frame<Bytes>>, f: Frame<Bytes>, size: nat)
    requires (forall k :: 0 <= k < |fs| ==> WellFormed(fs[k], size)) && WellFormed(f, size)
    ensures EncodeAll(fs + [f], size) == EncodeAll(fs, size) + Encode(f, size)
  {
    if fs == [] {
      assert [f][1..] == [];
      assert Encode(f, size) + [] == Encode(f, size) == [] + Encode(f, size);
    } else {
      assert (fs + [f])[1..] == fs[1..] + [f];
      EncodeAppend(fs[1..], f, size);
      assert Encode(fs[0], size) + (EncodeAll(fs[1..], size) + Encode(f, size)) == EncodeAll(fs, size) + Encode(f, size);
    }
  }

  // ---------- the receive buffer ----------

  /** What one recv call answers. */
  datatype RecvOutcome = Data(bytes: Bytes) | WouldBlock | Reset | Closed | Fault

  datatype ReadResult = Complete(cmd: byte, id: nat) | NotYet | Lost | Exit

  /** The receive buffer of a connection. The server's connections hold results, the client's
      holds tasks; only the server takes a reset for a lost connection rather than an error. */
  class Reader {
    const size: nat
    const resetIsLoss: bool
    const buffer: array<byte>
    var received: nat

    ghost predicate Valid()
      reads this
    {
      buffer.Length == HEADER_SIZE + size && received < buffer.Length
    }

    /** The part of the buffer that belongs to an unfinished frame. */
    ghost function Residue(): Bytes
      reads this, buffer
      requires Valid()
    {
      buffer[..received]
    }

    constructor (size: nat, resetIsLoss: bool)
      ensures Valid() && Residue() == [] && this.size == size && this.resetIsLoss == resetIsLoss && fresh(buffer)
    {
      this.size, this.resetIsLoss := size, resetIsLoss;
      buffer := new byte[HEADER_SIZE + size];
      received := 0;
    }

    /** `read_data_on_connection`. The payload of a complete frame stays in the buffer. */
    method Read(o: RecvOutcome) returns (r: ReadResult)
      requires Valid()
      requires o.Data? ==> 0 < |o.bytes| <= buffer.Length - received
      modifies this, buffer
      ensures Valid()
      ensures o.Data? ==> var a := Accept(old(Residue()), o.bytes, size);
                Residue() == a.residue
                && (a.frames == [] ==> r == NotYet)
                && (a.frames != [] ==> r == Complete(a.frames[0].cmd, a.frames[0].id) && buffer[HEADER_SIZE..] == a.frames[0].payload)
      ensures !o.Data? ==> buffer[..] == old(buffer[..]) && received == old(received)
      ensures o == WouldBlock ==> r == NotYet
      ensures o == Closed ==> r == Lost
      ensures o == Reset ==> r == if resetIsLoss then Lost else Exit
      ensures o == Fault ==> r == Exit
    {
      match o
      case WouldBlock => return NotYet;
      case Reset => return if resetIsLoss then Lost else Exit;
      case Closed => return Lost;
      case Fault => return Exit;
      case Data(bytes) =>
        ghost var was := buffer[..received];
        for k := 0 to |bytes|
          invariant received == old(received)
          invariant buffer[..received + k] == was + bytes[..k]
        {
          buffer[received + k] := bytes[k];
        }
        received := received + |bytes|;
        assert buffer[..received] == was + bytes;
        if received == buffer.Length {
          received := 0;
          assert buffer[..] == was + bytes;
          r := Complete(buffer[0], FromBigEndian(buffer[1..5]));
          assert buffer[1..5] == (was + bytes)[1..5];
          assert buffer[HEADER_SIZE..] == (was + bytes)[5..];
        } else {
          r := NotYet;
        }
    }
  }
}
