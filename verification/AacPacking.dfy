/**
 Packing AAC frames into the caller's read buffer: a 32-bit marker, a 16-bit frame count, then
 each frame behind its 16-bit size, all little-endian.
 */
module AacPacking {
  newtype byte = x: int | 0 <= x < 256

  const HEADER: nat := 6

  /** 0x51434F4D as it lies in memory. */
  const MARKER: seq<byte> := [0x4D, 0x4F, 0x43, 0x51]

  /** A 16-bit store, which keeps the low half of a larger number. */
  function Le16(n: nat): (w: seq<byte>)
    ensures |w| == 2
  {
    [(n % 256) as byte, (n / 256 % 256) as byte]
  }

  function Word(lo: byte, hi: byte): nat {
    lo as int + 256 * hi as int
  }

  /* ---------- the reader's side: an independent decoder ---------- */

  datatype Decoded = Malformed | Frames(frames: seq<seq<byte>>)

  /** The first `n` size-prefixed frames of `data`. */
  function DecodeFrames(data: seq<byte>, n: nat): Decoded {
    if n == 0 then Frames([])
    else if |data| < 2 then Malformed
    else
      var size := Word(data[0], data[1]);
      if |data| < 2 + size then Malformed
      else
        match DecodeFrames(data[2 + size..], n - 1)
        case Malformed => Malformed
        case Frames(rest) => Frames([data[2..2 + size]] + rest)
  }

  function Decode(data: seq<byte>): Decoded {
    if |data| < HEADER || data[..4] != MARKER then Malformed
    else DecodeFrames(data[HEADER..], Word(data[4], data[5]))
  }

  /* ---------- what the driver delivers ---------- */

  /** One driver read: data (cut to the room offered), end of data, a retryable failure, or an error. */
  datatype Reply = Data(payload: seq<byte>) | NoData | Again | Failed(code: int)

  datatype Status = Filled | Error(code: int)

  /** Frames delivered, how the read ends, and whether a frame came after a retryable failure. */
  datatype Taken = Taken(frames: seq<seq<byte>>, status: Status, gap: bool)

  function Cut(payload: seq<byte>, room: nat): (f: seq<byte>)
    ensures |f| <= room
  {
    if |payload| <= room then payload else payload[..room]
  }

  /**
   What a read takes from the driver when `room` bytes are left: every frame needs a size word and
   at least one byte; the first frame of a stream (`first` still false) is returned alone.
   */
  function Take(replies: seq<Reply>, i: nat, room: nat, first: bool): Taken
    requires i <= |replies|
    decreases |replies| - i
  {
    if room <= 2 || i == |replies| then Taken([], Filled, false)
    else
      match replies[i]
      case NoData => Taken([], Filled, false)
      case Failed(code) => Taken([], Error(code), false)
      case Again =>
        var rest := Take(replies, i + 1, room - 2, first);
        rest.(gap := rest.gap || rest.frames != [])
      case Data(payload) =>
        var f := Cut(payload, room - 2);
        if f == [] then Taken([], Filled, false)
        else if !first then Taken([f], Filled, false)
        else
          var rest := Take(replies, i + 1, room - 2 - |f|, true);
          rest.(frames := [f] + rest.frames)
  }

  /** The bytes behind the header after the read, given the ones before it: a retry skips two of them. */
  function Body(room: seq<byte>, replies: seq<Reply>, i: nat, first: bool): (b: seq<byte>)
    requires i <= |replies|
    ensures |b| == |room|
    decreases |replies| - i
  {
    if |room| <= 2 || i == |replies| then room
    else
      match replies[i]
      case NoData => room
      case Failed(_) => room
      case Again => room[..2] + Body(room[2..], replies, i + 1, first)
      case Data(payload) =>
        var f := Cut(payload, |room| - 2);
        if f == [] then room
        else if !first then Le16(|f|) + f + room[2 + |f|..]
        else Le16(|f|) + f + Body(room[2 + |f|..], replies, i + 1, true)
  }

  /** Each frame takes at least three bytes, so a 16-bit counter holds their number. */
  lemma {:induction false} FewFrames(replies: seq<Reply>, i: nat, room: nat, first: bool)
    requires i <= |replies|
    ensures 3 * |Take(replies, i, room, first).frames| <= room
    decreases |replies| - i
  {
    if room > 2 && i < |replies| {
      match replies[i]
      case Again => FewFrames(replies, i + 1, room - 2, first);
      case Data(payload) =>
        var f := Cut(payload, room - 2);
        if f != [] && first {
          FewFrames(replies, i + 1, room - 2 - |f|, true);
        }
      case _ =>
    }
  }

  /** Decoding takes a packed frame off the front. */
  lemma DecodeOne(f: seq<byte>, rest: seq<byte>, n: nat)
    requires |f| < 0x1_0000 && DecodeFrames(rest, n).Frames?
    ensures DecodeFrames(Le16(|f|) + f + rest, n + 1) == Frames([f] + DecodeFrames(rest, n).frames)
  {
    var data := Le16(|f|) + f + rest;
    Le16Wraps(0, |f|);
    hide Le16;
    assert data[0] == Le16(|f|)[0] && data[1] == Le16(|f|)[1];
    assert data[2..2 + |f|] == f && data[2 + |f|..] == rest;
  }

  lemma DecodeNone(data: seq<byte>)
    ensures DecodeFrames(data, 0) == Frames([])
  {
  }

  /** Without a retry before a frame, the bytes decode to exactly the frames delivered. */
  lemma {:induction false} BodyDecodes(room: seq<byte>, replies: seq<Reply>, i: nat, first: bool)
    requires i <= |replies| && |room| < 0x1_0000 && !Take(replies, i, |room|, first).gap
    ensures var frames := Take(replies, i, |room|, first).frames;
            DecodeFrames(Body(room, replies, i, first), |frames|) == Frames(frames)
    decreases |replies| - i
  {
    hide DecodeFrames, Le16;
    DecodeNone(Body(room, replies, i, first));
    if |room| > 2 && i < |replies| && replies[i].Data? {
      var f := Cut(replies[i].payload, |room| - 2);
      if f != [] && first {
        BodyDecodes(room[2 + |f|..], replies, i + 1, true);
        var rest := Take(replies, i + 1, |room| - 2 - |f|, true).frames;
        DecodeOne(f, Body(room[2 + |f|..], replies, i + 1, true), |rest|);
      } else if f != [] {
        DecodeNone(room[2 + |f|..]);
        DecodeOne(f, room[2 + |f|..], 0);
      }
    }
  }

  /** Every frame has a byte, and a retry counts as a gap only before a frame. */
  lemma {:induction false} TakenFrames(replies: seq<Reply>, i: nat, room: nat, first: bool)
    requires i <= |replies|
    ensures var taken := Take(replies, i, room, first);
            (forall k | 0 <= k < |taken.frames| :: taken.frames[k] != []) && (taken.gap ==> taken.frames != [])
    decreases |replies| - i
  {
    if room > 2 && i < |replies| {
      match replies[i]
      case Again => TakenFrames(replies, i + 1, room - 2, first);
      case Data(payload) =>
        var f := Cut(payload, room - 2);
        if f != [] && first {
          TakenFrames(replies, i + 1, room - 2 - |f|, true);
        }
      case _ =>
    }
  }

  /* ---------- what a read takes ---------- */

  /** A reply that does not end a read of a stream under way. */
  predicate GoesOn(reply: Reply) {
    reply.Again? || (reply.Data? && reply.payload != [])
  }

  /** The bytes that replies `i..n` use, and the frames among them. */
  function Needed(replies: seq<Reply>, i: nat, n: nat): nat
    requires i <= n <= |replies|
    decreases n - i
  {
    if i == n then 0 else 2 + (if replies[i].Data? then |replies[i].payload| else 0) + Needed(replies, i + 1, n)
  }

  function Payloads(replies: seq<Reply>, i: nat, n: nat): seq<seq<byte>>
    requires i <= n <= |replies|
    decreases n - i
  {
    if i == n then []
    else (if replies[i].Data? then [replies[i].payload] else []) + Payloads(replies, i + 1, n)
  }

  lemma {:induction false} NeededCounts(replies: seq<Reply>, i: nat, n: nat)
    requires i <= n <= |replies|
    ensures Needed(replies, i, n) >= 2 * (n - i)
    decreases n - i
  {
    if i < n {
      NeededCounts(replies, i + 1, n);
    }
  }

  predicate RetryBeforeData(replies: seq<Reply>, i: nat, n: nat)
    requires n <= |replies|
  {
    exists a, b :: i <= a < b < n && replies[a].Again? && replies[b].Data?
  }

  /** Replies `i..n` go on, the next one if there is one ends the read, and the room holds their frames. */
  predicate Fits(replies: seq<Reply>, i: nat, n: nat, room: nat) {
    && i <= n <= |replies| && (forall k | i <= k < n :: GoesOn(replies[k]))
    && (n < |replies| ==> !GoesOn(replies[n])) && Needed(replies, i, n) <= room
  }

  /** Of a stream under way a read takes every frame up to the reply that ends it, whole and in order, as long as the
      room holds them; it reports the driver's error exactly when there is still room for another frame. */
  lemma {:induction false} TakesExactly(replies: seq<Reply>, i: nat, n: nat, room: nat)
    requires Fits(replies, i, n, room)
    ensures var taken := Take(replies, i, room, true);
            && taken.frames == Payloads(replies, i, n)
            && taken.status == (if n < |replies| && replies[n].Failed? && room > Needed(replies, i, n) + 2
                                then Error(replies[n].code) else Filled)
            && (taken.gap <==> RetryBeforeData(replies, i, n))
    decreases n - i
  {
    hide RetryBeforeData;
    if i == n {
      TakeEnds(replies, n, room);
    } else if room > 2 {
      RetryAhead(replies, i, n);
      TakeOne(replies, i, room);
      hide Take, Cut;
      TakesExactly(replies, i + 1, n, room - 2 - if replies[i].Data? then |replies[i].payload| else 0);
    } else {
      NeededCounts(replies, i, n);
      RetryAhead(replies, i, n);
      NoRetryNow(replies, n);
    }
  }

  lemma NoRetryNow(replies: seq<Reply>, n: nat)
    requires n <= |replies|
    ensures !RetryBeforeData(replies, n, n)
  {
  }

  lemma TakeEnds(replies: seq<Reply>, n: nat, room: nat)
    requires n <= |replies| && (n < |replies| ==> !GoesOn(replies[n]))
    ensures Take(replies, n, room, true)
            == Taken([], if n < |replies| && replies[n].Failed? && room > 2 then Error(replies[n].code) else Filled,
                     false)
    ensures !RetryBeforeData(replies, n, n)
  {
  }

  lemma TakeOne(replies: seq<Reply>, i: nat, room: nat)
    requires i < |replies| && GoesOn(replies[i]) && room > 2
    requires 2 + (if replies[i].Data? then |replies[i].payload| else 0) <= room
    ensures replies[i].Again? ==>
              var rest := Take(replies, i + 1, room - 2, true);
              Take(replies, i, room, true) == rest.(gap := rest.gap || rest.frames != [])
    ensures replies[i].Data? ==>
              var rest := Take(replies, i + 1, room - 2 - |replies[i].payload|, true);
              Take(replies, i, room, true) == rest.(frames := [replies[i].payload] + rest.frames)
  {
  }

  lemma RetryAhead(replies: seq<Reply>, i: nat, n: nat)
    requires i < n <= |replies| && forall k | i <= k < n :: GoesOn(replies[k])
    ensures RetryBeforeData(replies, i, n)
            <==> RetryBeforeData(replies, i + 1, n) || (replies[i].Again? && Payloads(replies, i + 1, n) != [])
  {
    SomeData(replies, i + 1, n);
  }

  lemma {:induction false} SomeData(replies: seq<Reply>, i: nat, n: nat)
    requires i <= n <= |replies|
    ensures Payloads(replies, i, n) != [] <==> exists b :: i <= b < n && replies[b].Data?
    decreases n - i
  {
    if i < n {
      SomeData(replies, i + 1, n);
    }
  }

  /** The bytes behind its frames stay as they were. */
  lemma {:induction false} BodyKeepsRest(replies: seq<Reply>, i: nat, n: nat, room: seq<byte>)
    requires Fits(replies, i, n, |room|)
    ensures Body(room, replies, i, true)[Needed(replies, i, n)..] == room[Needed(replies, i, n)..]
    decreases n - i
  {
    if i < n {
      assert GoesOn(replies[i]);
      var size := 2 + if replies[i].Data? then |replies[i].payload| else 0;
      if |room| > 2 {
        BodyKeepsRest(replies, i + 1, n, room[size..]);
        BodyBehind(replies, i, room, size);
        hide Body, Le16;
        var used := Needed(replies, i + 1, n);
        assert Body(room, replies, i, true)[size..][used..] == Body(room, replies, i, true)[size + used..];
      }
    }
  }

  lemma BodyBehind(replies: seq<Reply>, i: nat, room: seq<byte>, size: nat)
    requires i < |replies| && GoesOn(replies[i]) && 2 < |room|
    requires size == (2 + if replies[i].Data? then |replies[i].payload| else 0) <= |room|
    ensures Body(room, replies, i, true)[size..] == Body(room[size..], replies, i + 1, true)
    ensures replies[i].Again? ==> Body(room, replies, i, true)[..2] == room[..2]
  {
    hide Le16;
  }

  /** A frame that the room does not hold is cut to fill it. */
  lemma LongFrameFills(replies: seq<Reply>, i: nat, room: nat, first: bool)
    requires i < |replies| && replies[i].Data? && room > 2 && |replies[i].payload| >= room - 2
    ensures Take(replies, i, room, first) == Taken([replies[i].payload[..room - 2]], Filled, false)
  {
    assert replies[i].payload[..|replies[i].payload|] == replies[i].payload;
  }

  /** A new stream's first read takes one frame, however many are ready. */
  lemma {:induction false} FirstFrameAlone(replies: seq<Reply>, i: nat, n: nat, room: nat)
    requires i <= n < |replies| && (forall k | i <= k < n :: replies[k].Again?)
    requires replies[n].Data? && replies[n].payload != [] && 2 * (n - i) + 2 + |replies[n].payload| <= room
    ensures Take(replies, i, room, false) == Taken([replies[n].payload], Filled, i < n)
    decreases n - i
  {
    if i < n {
      FirstFrameAlone(replies, i + 1, n, room - 2);
    }
  }

  /** The marker reads as the 32-bit number that identifies the format, and a counter as itself modulo 0x10000. */
  lemma WordsReadBack(n: nat)
    ensures MARKER[0] as int + 0x100 * (MARKER[1] as int + 0x100 * (MARKER[2] as int + 0x100 * MARKER[3] as int))
            == 0x5143_4F4D
    ensures Le16(n)[0] as int + 0x100 * Le16(n)[1] as int == n % 0x1_0000
  {
    assert n % 0x1_0000 == n / 0x100 % 0x100 * 0x100 + n % 0x100;
  }

  /** Behind a packed frame, decoding gives that frame and whatever the rest gives. */
  lemma DecodeBehind(f: seq<byte>, rest: seq<byte>, n: nat)
    requires |f| < 0x1_0000
    ensures DecodeFrames(Le16(|f|) + f + rest, n + 1)
            == match DecodeFrames(rest, n)
               case Malformed => Malformed
               case Frames(frames) => Frames([f] + frames)
  {
    var data := Le16(|f|) + f + rest;
    Le16Wraps(0, |f|);
    hide Le16;
    assert data[0] == Le16(|f|)[0] && data[1] == Le16(|f|)[1];
    assert data[2..2 + |f|] == f && data[2 + |f|..] == rest;
  }

  /** Two clear bytes decode as an empty frame. */
  lemma ClearGapDecodesEmpty(data: seq<byte>, n: nat)
    requires |data| >= 2 && data[0] == 0 && data[1] == 0 && n > 0
    ensures DecodeFrames(data, n).Frames? ==>
              DecodeFrames(data, n).frames != [] && DecodeFrames(data, n).frames[0] == []
  {
  }

  /** In a buffer that was clear, a retry before a frame decodes to something else. */
  lemma {:induction false} ClearGapMisdecodes(room: seq<byte>, replies: seq<Reply>, i: nat, first: bool)
    requires i <= |replies| && |room| < 0x1_0000 && (forall k | 0 <= k < |room| :: room[k] == 0)
    requires Take(replies, i, |room|, first).gap
    ensures var frames := Take(replies, i, |room|, first).frames;
            DecodeFrames(Body(room, replies, i, first), |frames|) != Frames(frames)
    decreases |replies| - i
  {
    hide DecodeFrames, Le16;
    var frames := Take(replies, i, |room|, first).frames;
    TakenFrames(replies, i, |room|, first);
    if replies[i].Again? {
      var body := Body(room, replies, i, first);
      assert body[0] == room[0] && body[1] == room[1];
      ClearGapDecodesEmpty(body, |frames|);
    } else {
      var f := Cut(replies[i].payload, |room| - 2);
      var tail := room[2 + |f|..];
      var rest := Take(replies, i + 1, |tail|, true);
      ClearGapMisdecodes(tail, replies, i + 1, true);
      DecodeBehind(f, Body(tail, replies, i + 1, true), |rest.frames|);
      assert frames == [f] + rest.frames && frames[1..] == rest.frames;
      if DecodeFrames(Body(tail, replies, i + 1, true), |rest.frames|).Frames? {
        var got := DecodeFrames(Body(tail, replies, i + 1, true), |rest.frames|).frames;
        assert ([f] + got)[1..] == got;
      }
    }
  }

  /** The buffer after a read: marker, counter and body. */
  function PackedBytes(room: seq<byte>, replies: seq<Reply>, first: bool): seq<byte> {
    MARKER + Le16(|Take(replies, 0, |room|, first).frames|) + Body(room, replies, 0, first)
  }

  lemma PackedDecodesBody(room: seq<byte>, replies: seq<Reply>, first: bool)
    requires |room| < 0x1_0000
    ensures Decode(PackedBytes(room, replies, first))
            == DecodeFrames(Body(room, replies, 0, first), |Take(replies, 0, |room|, first).frames|)
  {
    var n := |Take(replies, 0, |room|, first).frames|;
    var data := PackedBytes(room, replies, first);
    FewFrames(replies, 0, |room|, first);
    Le16Wraps(0, n);
    hide Le16, Take, Body, DecodeFrames;
    assert data[..4] == MARKER && data[4] == Le16(n)[0] && data[5] == Le16(n)[1];
    assert data[HEADER..] == Body(room, replies, 0, first);
  }

  ghost predicate Roundtrips(room: seq<byte>, replies: seq<Reply>, first: bool) {
    Decode(PackedBytes(room, replies, first)) == Frames(Take(replies, 0, |room|, first).frames)
  }

  /** Whatever the buffer held before, a read decodes to exactly the frames delivered, if and only if no retry came
      before a frame. */
  lemma DecodesExactly(n: nat, replies: seq<Reply>, first: bool)
    requires n < 0x1_0000
    ensures (forall room: seq<byte> | |room| == n :: Roundtrips(room, replies, first))
            <==> !Take(replies, 0, n, first).gap
  {
    if Take(replies, 0, n, first).gap {
      var clear: seq<byte> := seq(n, _ => 0);
      PackedDecodesBody(clear, replies, first);
      ClearGapMisdecodes(clear, replies, 0, first);
      assert !Roundtrips(clear, replies, first);
    } else {
      forall room: seq<byte> | |room| == n ensures Roundtrips(room, replies, first) {
        PackedDecodesBody(room, replies, first);
        BodyDecodes(room, replies, 0, first);
      }
    }
  }

  const RETRY_BETWEEN := [Data([1]), Again, Data([2])]

  /** One such run, and all it needs of the buffer: two clear bytes where the retry falls. */
  lemma RetryGapMisdecodes(room: seq<byte>)
    requires |room| >= 8 && room[3] == 0 && room[4] == 0
    ensures var frames := Take(RETRY_BETWEEN, 0, |room|, true).frames;
            |frames| == 2 && DecodeFrames(Body(room, RETRY_BETWEEN, 0, true), 2) != Frames(frames)
  {
    var tail := Body(room[3..], RETRY_BETWEEN, 1, true);
    FrameOfOne(room);
    RetryTaken(|room| - 3);
    TailIsClear(room);
    ClearGapDecodesEmpty(tail, 1);
    DecodeBehind([1], tail, 1);
    hide *;
    var decoded := DecodeFrames(tail, 1);
    if decoded.Frames? {
      assert ([[1]] + decoded.frames)[1] == [] && ([[1]] + [[2]])[1] == [2];
    }
  }

  lemma TailIsClear(room: seq<byte>)
    requires |room| >= 8 && room[3] == 0 && room[4] == 0
    ensures var tail := Body(room[3..], RETRY_BETWEEN, 1, true);
            |tail| >= 2 && tail[0] == 0 && tail[1] == 0
  {
    assert room[3..][0] == 0 && room[3..][1] == 0;
  }

  lemma RetryTaken(room: nat)
    requires room >= 5
    ensures Take(RETRY_BETWEEN, 1, room, true).frames == [[2]]
  {
    assert RETRY_BETWEEN[2] == Data([2]) && Cut([2], room - 4) == [2];
    assert Take(RETRY_BETWEEN, 3, room - 5, true).frames == [];
    assert Take(RETRY_BETWEEN, 2, room - 2, true).frames == [[2]] + [];
  }

  lemma FrameOfOne(room: seq<byte>)
    requires |room| >= 8
    ensures Body(room, RETRY_BETWEEN, 0, true) == Le16(1) + [1] + Body(room[3..], RETRY_BETWEEN, 1, true)
    ensures Take(RETRY_BETWEEN, 0, |room|, true).frames == [[1]] + Take(RETRY_BETWEEN, 1, |room| - 3, true).frames
  {
    assert RETRY_BETWEEN[0] == Data([1]) && Cut([1], |room| - 2) == [1];
  }

  /* ---------- the read ---------- */

  /**
   What a read leaves in the buffer: marker, counter and body; and, when the sizes fit 16 bits and no
   frame came after a retry, bytes that decode to exactly the frames the driver delivered.
   */
  ghost predicate Packed(data: seq<byte>, room: seq<byte>, replies: seq<Reply>, first: bool) {
    var taken := Take(replies, 0, |room|, first);
    && data == PackedBytes(room, replies, first)
    && (|data| < 0x1_0000 && !taken.gap ==> Decode(data) == Frames(taken.frames))
  }

  /** Progress of the loop: frames counted, bytes settled, bytes still as they were. */
  datatype Cursor = Cursor(n: nat, done: seq<byte>, tail: seq<byte>)

  /** MARKER, counter, settled bytes and untouched rest, as they lie in the buffer. */
  ghost predicate Holds(data: seq<byte>, c: Cursor) {
    && |data| == HEADER + |c.done| + |c.tail|
    && data[..4] == MARKER && data[4] == Le16(c.n)[0] && data[5] == Le16(c.n)[1]
    && data[HEADER..HEADER + |c.done|] == c.done && data[HEADER + |c.done|..] == c.tail
  }

  lemma HoldsDecodes(data: seq<byte>, c: Cursor)
    requires Holds(data, c)
    ensures data == MARKER + Le16(c.n) + (c.done + c.tail)
    ensures c.n < 0x1_0000 ==> Decode(data) == DecodeFrames(c.done + c.tail, c.n)
  {
    if c.n < 0x1_0000 {
      Le16Wraps(0, c.n);
    }
    hide Le16, DecodeFrames;
    assert data[HEADER..] == c.done + c.tail by {
      assert data[HEADER..] == data[HEADER..HEADER + |c.done|] + data[HEADER + |c.done|..];
    }
    assert data[4..HEADER] == Le16(c.n);
    assert data == data[..4] + data[4..HEADER] + data[HEADER..];
  }

  function WithFrame(c: Cursor, f: seq<byte>): (c': Cursor)
    requires 2 + |f| <= |c.tail|
    ensures c'.n == c.n + 1 && |c'.done| == |c.done| + 2 + |f| && |c'.tail| == |c.tail| - 2 - |f|
  {
    Cursor(c.n + 1, c.done + (Le16(|f|) + f), c.tail[2 + |f|..])
  }

  function WithGap(c: Cursor): (c': Cursor)
    requires 2 <= |c.tail|
    ensures c'.n == c.n && |c'.done| == |c.done| + 2 && |c'.tail| == |c.tail| - 2
  {
    Cursor(c.n, c.done + c.tail[..2], c.tail[2..])
  }

  lemma HoldsSkip(data: seq<byte>, c: Cursor)
    requires Holds(data, c) && |c.tail| >= 2
    ensures Holds(data, WithGap(c))
  {
    var at := HEADER + |c.done|;
    assert data[HEADER..at + 2] == data[HEADER..at] + data[at..][..2];
    assert data[at + 2..] == data[at..][2..];
  }

  /** The driver's replies, the room they are read into, and the first-read flag at the start. */
  datatype Job = Job(replies: seq<Reply>, room: seq<byte>, first: bool)

  /** What is settled and what the specification still wants agree with the whole. */
  ghost predicate OnTrack(c: Cursor, i: nat, first: bool, j: Job) {
    && i <= |j.replies|
    && c.done + Body(c.tail, j.replies, i, first) == Body(j.room, j.replies, 0, j.first)
    && var rest, taken := Take(j.replies, i, |c.tail|, first), Take(j.replies, 0, |j.room|, j.first);
       rest.status == taken.status && c.n + |rest.frames| == |taken.frames|
  }

  /** The loop is over: the buffer holds the whole body and every frame was counted. */
  ghost predicate Finished(data: seq<byte>, c: Cursor, status: Status, j: Job) {
    var taken := Take(j.replies, 0, |j.room|, j.first);
    && Holds(data, c) && c.done + c.tail == Body(j.room, j.replies, 0, j.first)
    && c.n == |taken.frames| && status == taken.status
  }

  lemma Starts(data: seq<byte>, j: Job)
    requires Holds(data, Cursor(0, [], j.room))
    ensures OnTrack(Cursor(0, [], j.room), 0, j.first, j)
    ensures j.room == [] ==> Finished(data, Cursor(0, [], j.room), Filled, j)
  {
    var whole := Body(j.room, j.replies, 0, j.first);
    assert [] + whole == whole;
  }

  lemma Ends(data: seq<byte>, c: Cursor, status: Status, j: Job)
    requires Finished(data, c, status, j)
    ensures Packed(data, j.room, j.replies, j.first)
    ensures status == Take(j.replies, 0, |j.room|, j.first).status
    ensures c.n > 0 <==> Take(j.replies, 0, |j.room|, j.first).frames != []
  {
    FewFrames(j.replies, 0, |j.room|, j.first);
    HoldsDecodes(data, c);
    if |j.room| + HEADER < 0x1_0000 && !Take(j.replies, 0, |j.room|, j.first).gap {
      BodyDecodes(j.room, j.replies, 0, j.first);
    }
  }

  /** A frame, of a stream whose first frame was read before. */
  lemma FrameStep(c: Cursor, i: nat, j: Job, f: seq<byte>)
    requires OnTrack(c, i, true, j)
    requires |c.tail| > 2 && i < |j.replies| && j.replies[i].Data?
    requires f == Cut(j.replies[i].payload, |c.tail| - 2) && f != []
    ensures OnTrack(WithFrame(c, f), i + 1, true, j)
  {
    hide Le16, Cut;
    var rest := Body(c.tail[2 + |f|..], j.replies, i + 1, true);
    assert c.done + (Le16(|f|) + f + rest) == (c.done + (Le16(|f|) + f)) + rest;
  }

  /** The first frame of a stream, which also ends the read. */
  lemma FirstFrameStep(data: seq<byte>, c: Cursor, i: nat, j: Job, f: seq<byte>)
    requires OnTrack(c, i, false, j)
    requires |c.tail| > 2 && i < |j.replies| && j.replies[i].Data?
    requires f == Cut(j.replies[i].payload, |c.tail| - 2) && f != []
    requires Holds(data, WithFrame(c, f))
    ensures Finished(data, WithFrame(c, f), Filled, j)
  {
    hide Le16;
    var rest := c.tail[2 + |f|..];
    assert c.done + (Le16(|f|) + f + rest) == (c.done + (Le16(|f|) + f)) + rest;
  }

  lemma RetryStep(c: Cursor, i: nat, first: bool, j: Job)
    requires OnTrack(c, i, first, j) && |c.tail| > 2 && i < |j.replies| && j.replies[i].Again?
    ensures OnTrack(WithGap(c), i + 1, first, j)
  {
  }

  /** The read ends: no room, no reply, no data or an error. */
  lemma StopStep(data: seq<byte>, c: Cursor, i: nat, first: bool, status: Status, j: Job)
    requires Holds(data, c) && OnTrack(c, i, first, j)
    requires |c.tail| > 2 && i < |j.replies| ==>
               j.replies[i].NoData? || j.replies[i].Failed?
               || (j.replies[i].Data? && Cut(j.replies[i].payload, |c.tail| - 2) == [])
    requires status == if |c.tail| > 2 && i < |j.replies| && j.replies[i].Failed? then Error(j.replies[i].code)
                       else Filled
    ensures Finished(data, c, status, j)
  {
  }

  /** The loop goes on: the next size word is at `at`, `count` bytes are left, and the first-read flag is up to date. */
  ghost predicate Running(data: seq<byte>, at: int, count: int, i: nat, first: bool, c: Cursor, j: Job) {
    && Holds(data, c) && OnTrack(c, i, first, j)
    && at == HEADER + |c.done| && count == |c.tail|
    && first == (j.first || c.n > 0)
  }

  /** The loop has ended. */
  ghost predicate Ended(data: seq<byte>, first: bool, status: Status, j: Job) {
    && Packed(data, j.room, j.replies, j.first)
    && var taken := Take(j.replies, 0, |j.room|, j.first);
       status == taken.status && first == (j.first || taken.frames != [])
  }

  lemma Runs(data: seq<byte>, j: Job)
    requires Holds(data, Cursor(0, [], j.room))
    ensures Running(data, HEADER, |j.room|, 0, j.first, Cursor(0, [], j.room), j)
    ensures j.room == [] ==> Ended(data, j.first, Filled, j)
  {
    Starts(data, j);
    hide OnTrack, Holds, Finished, Packed, Take;
    if j.room == [] {
      Ends(data, Cursor(0, [], j.room), Filled, j);
    }
  }

  /** No room, no reply, no data or an error. */
  lemma Stops(data: seq<byte>, at: int, count: int, i: nat, first: bool, c: Cursor, status: Status, j: Job)
    requires Running(data, at, count, i, first, c, j)
    requires count > 2 && i < |j.replies| ==>
               j.replies[i].NoData? || j.replies[i].Failed?
               || (j.replies[i].Data? && Cut(j.replies[i].payload, count - 2) == [])
    requires status == if count > 2 && i < |j.replies| && j.replies[i].Failed? then Error(j.replies[i].code) else Filled
    ensures Ended(data, first, status, j)
  {
    hide OnTrack, Holds, Finished, Packed, Take;
    StopStep(data, c, i, first, status, j);
    Ends(data, c, status, j);
  }

  lemma Retries(data: seq<byte>, at: int, count: int, i: nat, first: bool, c: Cursor, j: Job) returns (c': Cursor)
    requires Running(data, at, count, i, first, c, j) && count > 2 && i < |j.replies| && j.replies[i].Again?
    ensures Running(data, at + 2, count - 2, i + 1, first, c', j)
  {
    hide OnTrack, Holds;
    HoldsSkip(data, c);
    RetryStep(c, i, first, j);
    c' := WithGap(c);
  }

  lemma EndedMeans(data: seq<byte>, first: bool, status: Status, j: Job)
    requires Ended(data, first, status, j)
    ensures Packed(data, j.room, j.replies, j.first)
    ensures var taken := Take(j.replies, 0, |j.room|, j.first);
            status == taken.status && first == (j.first || taken.frames != [])
  {
  }

  /** Fills `buffer`; `firstDone` is the stream's first-read flag. */
  method ReadAac(buffer: array<byte>, firstDone: bool, replies: seq<Reply>) returns (status: Status, firstDone': bool)
    requires buffer.Length >= HEADER
    modifies buffer
    ensures Packed(buffer[..], old(buffer[HEADER..]), replies, firstDone)
    ensures var taken := Take(replies, 0, buffer.Length - HEADER, firstDone);
            status == taken.status && firstDone' == (firstDone || taken.frames != [])
  {
    hide *;
    ghost var j := Job(replies, buffer[HEADER..], firstDone);
    WriteHeader(buffer);
    status, firstDone' := ReadFrames(buffer, firstDone, replies, j.room);
    EndedMeans(buffer[..], firstDone', status, j);
  }

  /** The loop over the driver's reads, behind the header. */
  method ReadFrames(buffer: array<byte>, firstDone: bool, replies: seq<Reply>, ghost room: seq<byte>)
    returns (status: Status, firstDone': bool)
    requires Holds(buffer[..], Cursor(0, [], room))
    modifies buffer
    ensures Ended(buffer[..], firstDone', status, Job(replies, room, firstDone))
  {
    ghost var j := Job(replies, room, firstDone);
    ghost var c := Cursor(0, [], room);
    Runs(buffer[..], j);
    assert |room| == buffer.Length - HEADER;
    hide *;
    var p := HEADER;
    var count := buffer.Length - HEADER;
    var next := 0;
    status, firstDone' := Filled, firstDone;
    while count > 0
      invariant count >= 0 && next >= 0
      invariant count > 0 ==> status == Filled && Running(buffer[..], p, count, next, firstDone', c, j)
      invariant count == 0 ==> Ended(buffer[..], firstDone', status, j)
      decreases count
    {
      var sizeAt := p;
      p := p + 2;
      if !(count > 2) {
        Stops(buffer[..], sizeAt, count, next, firstDone', c, status, j);
        break;
      }
      count := count - 2;
      var reply := if next < |replies| then replies[next] else NoData;
      match reply {
        case NoData =>
          Stops(buffer[..], sizeAt, count + 2, next, firstDone', c, status, j);
          break;
        case Failed(code) =>
          status := Error(code);
          Stops(buffer[..], sizeAt, count + 2, next, firstDone', c, status, j);
          break;
        case Again =>
          c := Retries(buffer[..], sizeAt, count + 2, next, firstDone', c, j);
          next := next + 1;
        case Data(data) =>
          var bytesRead: nat;
          bytesRead, c := ReadFrame(buffer, sizeAt, count, firstDone', data, c, next, j);
          if bytesRead == 0 {
            break;
          }
          count := count - bytesRead;
          p := p + bytesRead;
          if !firstDone' {
            firstDone' := true;
            break;
          }
          next := next + 1;
      }
    }
  }

  /** One driver read of data, behind the size word at `at`; an empty one ends the read, and so does a first one. */
  method ReadFrame(buffer: array<byte>, at: int, count: nat, first: bool, data: seq<byte>,
                   ghost c: Cursor, ghost i: nat, ghost j: Job)
    returns (bytesRead: nat, ghost c': Cursor)
    requires Running(buffer[..], at, count + 2, i, first, c, j) && count > 0
    requires i < |j.replies| && j.replies[i] == Data(data)
    modifies buffer
    ensures bytesRead <= count
    ensures bytesRead > 0 && first && bytesRead < count ==>
              Running(buffer[..], at + 2 + bytesRead, count - bytesRead, i + 1, true, c', j)
    ensures bytesRead == 0 || !first || bytesRead == count ==> Ended(buffer[..], first || bytesRead > 0, Filled, j)
  {
    hide Take, Packed, Holds, OnTrack, Finished;
    var payload := Cut(data, count);
    bytesRead, c' := |payload|, c;
    if bytesRead == 0 {
      Stops(buffer[..], at, count + 2, i, first, c, Filled, j);
      return;
    }
    PackFrame(buffer, at, payload, c);
    c' := WithFrame(c, payload);
    if first {
      FrameStep(c, i, j, payload);
      if bytesRead == count {
        Stops(buffer[..], at + 2 + bytesRead, 0, i + 1, true, c', Filled, j);
      }
    } else {
      FirstFrameStep(buffer[..], c, i, j, payload);
      Ends(buffer[..], c', Filled, j);
    }
  }

  method WriteHeader(buffer: array<byte>)
    requires buffer.Length >= HEADER
    modifies buffer
    ensures Holds(buffer[..], Cursor(0, [], old(buffer[HEADER..])))
  {
    buffer[0], buffer[1], buffer[2], buffer[3] := 0x4D, 0x4F, 0x43, 0x51;
    buffer[4], buffer[5] := 0, 0;
  }

  /** Stores a payload behind its 16-bit size and bumps the 16-bit counter inside the buffer. */
  method PackFrame(buffer: array<byte>, at: nat, payload: seq<byte>, ghost c: Cursor)
    requires Holds(buffer[..], c) && at == HEADER + |c.done| && 2 + |payload| <= |c.tail|
    modifies buffer
    ensures Holds(buffer[..], WithFrame(c, payload))
  {
    for i := 0 to |payload|
      invariant forall k | 0 <= k < at + 2 || at + 2 + |payload| <= k < buffer.Length :: buffer[k] == old(buffer[k])
      invariant forall k | 0 <= k < i :: buffer[at + 2 + k] == payload[k]
    {
      buffer[at + 2 + i] := payload[i];
    }
    hide *;
    buffer[at], buffer[at + 1] := (|payload| % 256) as byte, (|payload| / 256 % 256) as byte;
    var k := (Word(buffer[4], buffer[5]) + 1) % 0x1_0000;
    buffer[4], buffer[5] := (k % 256) as byte, (k / 256) as byte;
    FrameLies(old(buffer[..]), buffer[..], c, payload);
  }

  /** The bytes after the stores, by position, are the cursor's next ones. */
  lemma FrameLies(before: seq<byte>, data: seq<byte>, c: Cursor, f: seq<byte>)
    requires Holds(before, c) && |data| == |before| && |data| >= HEADER && 2 + |f| <= |c.tail|
    requires var k := (Word(before[4], before[5]) + 1) % 0x1_0000;
             data[4] == (k % 256) as byte && data[5] == (k / 256) as byte
    requires var at := HEADER + |c.done|;
             && at + 2 + |f| <= |data|
             && data[at] == (|f| % 256) as byte && data[at + 1] == (|f| / 256 % 256) as byte
             && (forall k | 0 <= k < |f| :: data[at + 2 + k] == f[k])
             && (forall k | 0 <= k < 4 || HEADER <= k < at || at + 2 + |f| <= k < |data| :: data[k] == before[k])
    ensures Holds(data, WithFrame(c, f))
  {
    var at := HEADER + |c.done|;
    var end := at + 2 + |f|;
    BumpWord(before[4], before[5], c.n);
    var k := (Word(before[4], before[5]) + 1) % 0x1_0000;
    assert [data[at], data[at + 1]] == Le16(|f|);
    assert [(k % 256) as byte, (k / 256) as byte] == Le16(c.n + 1);
    hide Le16, Word;
    assert data[4] == Le16(c.n + 1)[0] && data[5] == Le16(c.n + 1)[1];
    assert before[end..] == before[at..][2 + |f|..];
    assert data[HEADER..end] == data[HEADER..at] + ([data[at], data[at + 1]] + data[at + 2..end]);
    assert data[HEADER..at] == before[HEADER..at] && data[at + 2..end] == f && data[end..] == before[end..];
  }

  /** A 16-bit store does not see multiples of 0x10000. */
  lemma Le16Wraps(q: nat, k: nat)
    requires k < 0x1_0000
    ensures Le16(0x1_0000 * q + k) == Le16(k) && Le16(k) == [(k % 256) as byte, (k / 256) as byte]
    ensures Word(Le16(k)[0], Le16(k)[1]) == k
  {
    assert (0x1_0000 * q + k) / 256 == 256 * q + k / 256;
  }

  lemma BumpWord(lo: byte, hi: byte, n: nat)
    requires lo == Le16(n)[0] && hi == Le16(n)[1]
    ensures var k := (Word(lo, hi) + 1) % 0x1_0000;
            [(k % 256) as byte, (k / 256) as byte] == Le16(n + 1)
  {
    hide Le16, Word;
    var q, w := n / 0x1_0000, n % 0x1_0000;
    Le16Wraps(q, w);
    if w == 0xFFFF {
      Le16Wraps(q + 1, 0);
    } else {
      Le16Wraps(q, w + 1);
    }
  }
}
