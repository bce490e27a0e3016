/** The ancillary (ST 2110-40) sender sample: a file is streamed over and over in user data words. */
module AncSender {
  import opened Blocks
  import opened Modulo

  // ---- The specification ----

  /** `len` bytes of the source repeated forever, from position `pos` on. */
  function Cycle(source: seq<Byte>, pos: nat, len: nat): (r: seq<Byte>)
    requires source != []
    ensures |r| == len
  {
    seq(len, i requires 0 <= i < len => source[(pos + i) % |source|])
  }

  /** The generated data of frame number k. */
  function Synthetic(k: nat, len: nat): (r: seq<Byte>)
    ensures |r| == len
  {
    seq(len, i requires 0 <= i < len => (k + i) % 0x100)
  }

  function Min(a: nat, b: nat): nat { if a < b then a else b }

  /** Room for user data words in a buffer: sizes are cut to 32 bits, and a limit of 0 is no limit. */
  function Room(size: nat, limit: nat): nat {
    var size32 := size % 0x1_0000_0000;
    if limit == 0 then size32 else Min(size32, limit)
  }

  /** Bytes sent when `pos` bytes of the source are already out: a payload never wraps. */
  function Length(source: seq<Byte>, limit: nat, size: nat, pos: nat): nat {
    if source == [] then Room(size, limit)
    else Min(Room(size, limit), |source| - pos % |source|)
  }

  function Payload(source: seq<Byte>, limit: nat, size: nat, pos: nat, k: nat): seq<Byte> {
    var len := Length(source, limit, size, pos);
    if source == [] then Synthetic(k, len) else Cycle(source, pos, len)
  }

  /** What is in a payload: it is no longer than the buffer, whose size is taken in 32 bits, nor than a
      limit other than zero, nor than what is left of the current pass over the source, and as long as
      one of these; and it continues the source where the last one ended, or is generated. */
  lemma PayloadIs(source: seq<Byte>, limit: nat, size: nat, pos: nat, k: nat, p: seq<Byte>)
    requires p == Payload(source, limit, size, pos, k)
    ensures |p| <= size % 0x1_0000_0000 && (limit != 0 ==> |p| <= limit)
    ensures source != [] ==> pos % |source| + |p| <= |source|
    ensures || |p| == size % 0x1_0000_0000
            || (limit != 0 && |p| == limit)
            || (source != [] && pos % |source| + |p| == |source|)
    ensures source != [] ==> forall j :: 0 <= j < |p| ==> p[j] == source[(pos + j) % |source|]
    ensures source == [] ==> forall j :: 0 <= j < |p| ==> p[j] == (k + j) % 256
  {
  }

  /** The payloads for frames with buffers of the given sizes. */
  function Stream(source: seq<Byte>, limit: nat, sizes: seq<nat>): (r: seq<seq<Byte>>)
    ensures |r| == |sizes|
  {
    if sizes == [] then [] else
    var n := |sizes| - 1;
    var before := Stream(source, limit, sizes[..n]);
    before + [Payload(source, limit, sizes[n], |Flat(before)|, n)]
  }

  lemma CycleAppend(source: seq<Byte>, a: nat, b: nat)
    requires source != []
    ensures Cycle(source, 0, a) + Cycle(source, a, b) == Cycle(source, 0, a + b)
  {
  }

  /** All payloads together are a prefix of the source repeated forever: no byte is skipped,
      repeated or reordered where payloads or passes over the source meet. */
  lemma {:induction false} StreamIsCyclic(source: seq<Byte>, limit: nat, sizes: seq<nat>)
    requires source != []
    ensures Flat(Stream(source, limit, sizes)) == Cycle(source, 0, |Flat(Stream(source, limit, sizes))|)
  {
    if sizes != [] {
      var n := |sizes| - 1;
      var before := Stream(source, limit, sizes[..n]);
      StreamIsCyclic(source, limit, sizes[..n]);
      var pos := |Flat(before)|;
      var p := Payload(source, limit, sizes[n], pos, n);
      assert (before + [p])[..n] == before;
      CycleAppend(source, pos, |p|);
    }
  }

  /** The same, byte by byte. */
  lemma StreamBytes(source: seq<Byte>, limit: nat, sizes: seq<nat>, j: nat)
    requires source != [] && j < |Flat(Stream(source, limit, sizes))|
    ensures Flat(Stream(source, limit, sizes))[j] == source[j % |source|]
  {
    StreamIsCyclic(source, limit, sizes);
  }

  /** The exact length of payload k, when `pos` bytes have gone out before it. */
  lemma {:induction false} StreamLength(source: seq<Byte>, limit: nat, sizes: seq<nat>, k: nat)
    requires k < |sizes|
    ensures var len := |Stream(source, limit, sizes)[k]|;
            var pos := |Flat(Stream(source, limit, sizes)[..k])|;
            && len <= sizes[k] % 0x1_0000_0000 && (limit != 0 ==> len <= limit)
            && (source != [] ==> pos % |source| + len <= |source|)
            && (|| len == sizes[k] % 0x1_0000_0000
                || (limit != 0 && len == limit)
                || (source != [] && pos % |source| + len == |source|))
  {
    var n := |sizes| - 1;
    var before := Stream(source, limit, sizes[..n]);
    assert Stream(source, limit, sizes)[..n] == before;
    if k < n {
      StreamLength(source, limit, sizes[..n], k);
      assert Stream(source, limit, sizes)[..k] == before[..k];
    }
  }

  /** Every payload fits its buffer and the limit, and is empty only if its buffer is. */
  lemma {:induction false} StreamFits(source: seq<Byte>, limit: nat, sizes: seq<nat>, k: nat)
    requires k < |sizes|
    ensures |Stream(source, limit, sizes)[k]| <= sizes[k]
    ensures limit != 0 ==> |Stream(source, limit, sizes)[k]| <= limit
    ensures Stream(source, limit, sizes)[k] == [] <==> sizes[k] % 0x1_0000_0000 == 0
  {
    var n := |sizes| - 1;
    if k < n { StreamFits(source, limit, sizes[..n], k); }
  }

  /** Without a source, byte i of frame k is k + i modulo 256. */
  lemma {:induction false} StreamIsSynthetic(limit: nat, sizes: seq<nat>, k: nat)
    requires k < |sizes|
    ensures |Stream([], limit, sizes)[k]| ==
            (var size := sizes[k] % 0x1_0000_0000; if limit == 0 || size < limit then size else limit)
    ensures forall i :: 0 <= i < |Stream([], limit, sizes)[k]| ==> Stream([], limit, sizes)[k][i] == (k + i) % 256
  {
    var n := |sizes| - 1;
    if k < n { StreamIsSynthetic(limit, sizes[..n], k); }
  }

  // ---- The code ----

  /** The fields of `st40_meta` that vary, and the number of user data words in 16 bits. */
  datatype Meta = Meta(lineNumber: nat, udwSize: nat)

  /** `mtl_memcpy` to the start of a buffer. */
  method CopyBytes(buffer: array<Byte>, bytes: seq<Byte>)
    requires |bytes| <= buffer.Length
    modifies buffer
    ensures buffer[..] == bytes + old(buffer[..])[|bytes|..]
  {
    forall i | 0 <= i < |bytes| { buffer[i] := bytes[i]; }
  }

  class Frame {
    const buffer: array<Byte>
    var fill: nat
    var meta: Meta

    constructor (size: nat)
      ensures fresh(buffer) && buffer.Length == size
    {
      buffer := new Byte[size];
      fill, meta := 0, Meta(0, 0);
    }
  }

  /** What the thread sees when it asks for a frame: none in time, or one with a buffer size, which
      the library then accepts or refuses. */
  datatype Poll = NoFrame | Got(size: nat, accepted: bool)

  /** Buffer sizes of the frames that are filled: a refused frame ends the thread. */
  function Sizes(polls: seq<Poll>): seq<nat> {
    if polls == [] then []
    else if polls[0].NoFrame? then Sizes(polls[1..])
    else if polls[0].accepted then [polls[0].size] + Sizes(polls[1..])
    else [polls[0].size]
  }

  /** With the next lemma, this determines which frames are filled: polls are independent of each other
      until a frame is refused. */
  lemma {:induction false} SizesAppend(a: seq<Poll>, b: seq<Poll>)
    requires forall i :: 0 <= i < |a| && a[i].Got? ==> a[i].accepted
    ensures Sizes(a + b) == Sizes(a) + Sizes(b)
  {
    if a == [] {
      assert a + b == b;
    } else {
      SizesAppend(a[1..], b);
      assert (a + b)[0] == a[0] && (a + b)[1..] == a[1..] + b;
    }
  }

  /** A missing frame is passed over, an accepted one is filled, and a refused one is the last. */
  lemma SizesOfOne(size: nat, b: seq<Poll>)
    ensures Sizes([]) == [] && Sizes([NoFrame]) == [] && Sizes([Got(size, true)]) == [size]
    ensures Sizes([Got(size, false)] + b) == [size]
  {
    assert ([Got(size, false)] + b)[0] == Got(size, false);
  }

  class Sender {
    /** Empty when there is no source file, or an empty one. */
    const source: seq<Byte>
    const limit: nat
    var cursor: nat
    var fbSend: nat

    constructor (source: seq<Byte>, limit: nat)
      ensures this.source == source && this.limit == limit && cursor == 0 && fbSend == 0
    {
      this.source, this.limit, cursor, fbSend := source, limit, 0, 0;
    }

    /** The cursor stands where `pos` bytes of the repeated source end. */
    ghost predicate At(pos: nat)
      reads this
    {
      source != [] ==> cursor == pos % |source| || (cursor == |source| && pos % |source| == 0)
    }

    /** The part of `tx_st40p_fill_payload` for a source file. */
    method CopyChunk(buffer: array<Byte>, room: nat, ghost pos: nat) returns (chunk: nat)
      requires source != [] && At(pos) && room <= buffer.Length
      modifies this`cursor, buffer
      ensures chunk == Min(room, |source| - pos % |source|) && At(pos + chunk)
      ensures buffer[..chunk] == Cycle(source, pos, chunk)
      ensures buffer[chunk..] == old(buffer[..])[chunk..]
    {
      chunk := room;
      var remaining := |source| - cursor;
      if remaining == 0 {
        cursor := 0;
        remaining := |source| - cursor;
      }
      if remaining < chunk { chunk := remaining; }
      assert cursor == pos % |source|;
      CopyBytes(buffer, source[cursor..cursor + chunk]);
      SliceIsCycle(source, cursor, pos, chunk);
      Advance(pos, chunk, |source|);
      cursor := cursor + chunk;
      if cursor >= |source| { cursor := 0; }
    }

    /** The part of `tx_st40p_fill_payload` without a source file. */
    method Generate(buffer: array<Byte>, chunk: nat)
      requires chunk <= buffer.Length
      modifies buffer
      ensures buffer[..chunk] == Synthetic(fbSend, chunk)
      ensures buffer[chunk..] == old(buffer[..])[chunk..]
    {
      var i := 0;
      while i < chunk
        invariant 0 <= i <= chunk
        invariant forall j :: 0 <= j < i ==> buffer[j] == (fbSend + j) % 0x100
        invariant forall j :: i <= j < buffer.Length ==> buffer[j] == old(buffer[j])
      {
        buffer[i] := (fbSend + i) % 0x100;
        i := i + 1;
      }
    }

    /** `tx_st40p_fill_payload` and `tx_st40p_fill_meta`. The size in the meta data has 16 bits. */
    method FillPayload(frame: Frame, ghost pos: nat)
      requires At(pos)
      modifies this`cursor, frame, frame.buffer
      ensures At(pos + frame.fill)
      ensures frame.fill <= frame.buffer.Length
      ensures frame.buffer[..frame.fill] == Payload(source, limit, frame.buffer.Length, pos, fbSend)
      ensures frame.buffer[frame.fill..] == old(frame.buffer[..])[frame.fill..]
      ensures frame.meta == Meta(10 + fbSend % 100, frame.fill % 0x1_0000)
    {
      var chunk := frame.buffer.Length % 0x1_0000_0000;
      if limit != 0 && chunk > limit { chunk := limit; }
      assert chunk == Room(frame.buffer.Length, limit);
      if source != [] {
        chunk := CopyChunk(frame.buffer, chunk, pos);
      } else {
        Generate(frame.buffer, chunk);
      }
      frame.meta := Meta(10 + fbSend % 100, chunk % 0x1_0000);
      frame.fill := chunk;
    }

    /** One turn of the thread: `sizes` are the buffers of the frames filled so far. */
    method SendFrame(size: nat, sent: seq<seq<Byte>>, ghost sizes: seq<nat>) returns (r: seq<seq<Byte>>)
      requires sent == Stream(source, limit, sizes) && fbSend == |sizes|
      requires At(|Flat(sent)|)
      modifies this`cursor
      ensures r == Stream(source, limit, sizes + [size])
      ensures At(|Flat(r)|)
    {
      var frame := new Frame(size);
      FillPayload(frame, |Flat(sent)|);
      r := sent + [frame.buffer[..frame.fill]];
      StreamGrows(source, limit, sizes, size);
      FlatOneMore(sent, frame.buffer[..frame.fill]);
    }

    /** `tx_st40p_frame_thread` from the start: what is sent is the stream of the specification. */
    method FrameThread(polls: seq<Poll>) returns (sent: seq<seq<Byte>>)
      requires cursor == 0 && fbSend == 0
      modifies this
      ensures sent == Stream(source, limit, Sizes(polls))
    {
      sent := [];
      var i := 0;
      ghost var sizes := [];
      assert Sizes(polls) == sizes + Sizes(polls[i..]) by { assert polls[0..] == polls; }
      while i < |polls|
        invariant 0 <= i <= |polls|
        invariant Sizes(polls) == sizes + Sizes(polls[i..])
        invariant sent == Stream(source, limit, sizes) && fbSend == |sizes|
        invariant At(|Flat(sent)|)
      {
        NextPoll(polls, i, sizes);
        if polls[i].Got? {
          sent := SendFrame(polls[i].size, sent, sizes);
          sizes := sizes + [polls[i].size];
          if !polls[i].accepted { return; }
          fbSend := fbSend + 1;
        }
        i := i + 1;
      }
      assert sizes == Sizes(polls) by { assert polls[i..] == [] && sizes + [] == sizes; }
    }
  }

  lemma NextPoll(polls: seq<Poll>, i: nat, sizes: seq<nat>)
    requires i < |polls|
    ensures polls[i].NoFrame? ==> sizes + Sizes(polls[i..]) == sizes + Sizes(polls[i + 1..])
    ensures polls[i].Got? && polls[i].accepted ==>
              sizes + Sizes(polls[i..]) == (sizes + [polls[i].size]) + Sizes(polls[i + 1..])
    ensures polls[i].Got? && !polls[i].accepted ==> sizes + Sizes(polls[i..]) == sizes + [polls[i].size]
  {
    assert polls[i..][1..] == polls[i + 1..];
  }

  lemma SliceIsCycle(source: seq<Byte>, cursor: nat, pos: nat, len: nat)
    requires source != [] && cursor == pos % |source| && cursor + len <= |source|
    ensures source[cursor..cursor + len] == Cycle(source, pos, len)
  {
    var slice, cycle := source[cursor..cursor + len], Cycle(source, pos, len);
    forall i: nat | i < len ensures slice[i] == cycle[i] {
      Advance(pos, i, |source|);
    }
  }

  lemma StreamGrows(source: seq<Byte>, limit: nat, sizes: seq<nat>, size: nat)
    ensures Stream(source, limit, sizes + [size]) ==
            Stream(source, limit, sizes)
            + [Payload(source, limit, size, |Flat(Stream(source, limit, sizes))|, |sizes|)]
  {
    assert (sizes + [size])[..|sizes|] == sizes;
  }
}
