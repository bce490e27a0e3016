/** The video (ST 2110-20) sender sample: the frames of a file, over and over. */
module VideoSender {
  import opened Options
  import opened Blocks
  import opened Modulo

  /** A source of n whole frames. */
  ghost predicate Whole(source: seq<Byte>, size: nat, n: nat) {
    n > 0 && size > 0 && |source| == Times(size, n)
  }

  /** What the k-th send carries: frame k modulo n, and k as the index in the user meta data. */
  datatype Sent = Sent(data: seq<Byte>, index: Option<nat>)

  ghost function Nth(source: seq<Byte>, size: nat, n: nat, userMeta: bool, k: nat): Sent
    requires Whole(source, size, n)
  {
    BlockExists(source, size, n, k % n);
    Sent(Block(source, size, k % n), if userMeta then Some(k) else None)
  }

  /** What the system answers about the source file. */
  datatype SourceFile = Unreadable | Opened(bytes: seq<Byte>, statOk: bool, mapOk: bool)

  /** `tx_st20p_open_source`. If the file cannot be opened, the sample sends two blank frames. Any
      other trouble, also with memory, is an error; a file must hold one or more whole frames. */
  method OpenSource(file: SourceFile, size: nat, memoryOk: bool) returns (source: Option<seq<Byte>>)
    requires size > 0
    ensures source.None? <==>
            || !memoryOk
            || (file.Opened? && (!file.statOk || file.bytes == [] || |file.bytes| % size != 0 || !file.mapOk))
    ensures source.Some? ==> source.value == (if file.Opened? then file.bytes else seq(2 * size, _ => 0))
    ensures source.Some? ==> Whole(source.value, size, |source.value| / size)
  {
    var begin: seq<Byte>;
    if file.Unreadable? {
      begin := seq(2 * size, _ => 0);
      Division(2 * size, size, 2, 0);
    } else {
      if !file.statOk { return None; }
      if |file.bytes| < size {
        if file.bytes != [] { Division(|file.bytes|, size, 0, |file.bytes|); }
        return None;
      }
      if |file.bytes| % size != 0 { return None; }
      if !file.mapOk { return None; }
      begin := file.bytes;
    }
    if !memoryOk { return None; }
    WholeFrames(|begin|, size);
    return Some(begin);
  }

  lemma WholeFrames(len: nat, size: nat)
    requires 0 < size <= len && len % size == 0
    ensures len / size > 0 && len == Times(size, len / size)
  {
    TimesIs(size, len / size);
    assert len == len / size * size;
  }

  class Sender {
    const size: nat
    const source: seq<Byte>
    const userMeta: bool
    var cursor: nat
    var fbSend: nat

    constructor (source: seq<Byte>, size: nat, userMeta: bool)
      ensures this.source == source && this.size == size && this.userMeta == userMeta
      ensures cursor == 0 && fbSend == 0
    {
      this.source, this.size, this.userMeta, cursor, fbSend := source, size, userMeta, 0, 0;
    }

    ghost predicate Valid(n: nat)
      reads this
    {
      Whole(source, size, n) && cursor == Times(size, fbSend % n)
    }

    /** `tx_st20p_build_frame` and the step to the next frame. */
    method SendFrame(ghost n: nat) returns (r: Sent)
      requires Valid(n)
      modifies this
      ensures Valid(n) && fbSend == old(fbSend) + 1
      ensures r == Nth(source, size, n, userMeta, old(fbSend))
    {
      ghost var k := fbSend % n;
      BlockExists(source, size, n, k);
      r := Sent(source[cursor..cursor + size], if userMeta then Some(fbSend) else None);
      cursor := cursor + size;
      if cursor + size > |source| { cursor := 0; }
      Advance(fbSend, 1, n);
      WrapsIff(k, n, size);
      fbSend := fbSend + 1;
    }

    /** `tx_st20p_frame_thread` from the start; a poll says whether a frame came in time. The k-th frame
        sent is source frame k modulo n. */
    method FrameThread(polls: seq<bool>, ghost n: nat) returns (sent: seq<Sent>)
      requires n > 0 && size > 0 && |source| == n * size && cursor == 0 && fbSend == 0
      modifies this
      ensures fbSend == |sent| == multiset(polls)[true]
      ensures forall k: nat :: k < |sent| ==>
                && k % n * size + size <= |source|
                && sent[k].data == source[k % n * size..k % n * size + size]
                && sent[k].index == if userMeta then Some(k) else None
    {
      TimesIs(size, n);
      sent := SendAll(polls, n);
      forall k: nat | k < |sent|
        ensures && k % n * size + size <= |source|
                && sent[k].data == source[k % n * size..k % n * size + size]
                && sent[k].index == if userMeta then Some(k) else None
      {
        BlockExists(source, size, n, k % n);
        TimesIs(size, k % n);
      }
    }

    method SendAll(polls: seq<bool>, ghost n: nat) returns (sent: seq<Sent>)
      requires Valid(n) && fbSend == 0
      modifies this
      ensures fbSend == |sent| == multiset(polls)[true]
      ensures forall k: nat :: k < |sent| ==> sent[k] == Nth(source, size, n, userMeta, k)
    {
      sent := [];
      var i := 0;
      while i < |polls|
        invariant 0 <= i <= |polls| && Valid(n)
        invariant fbSend == |sent| == multiset(polls[..i])[true]
        invariant forall k: nat :: k < |sent| ==> sent[k] == Nth(source, size, n, userMeta, k)
      {
        assert polls[..i + 1] == polls[..i] + [polls[i]];
        if polls[i] {
          var r := SendFrame(n);
          sent := sent + [r];
        }
        i := i + 1;
      }
      assert polls[..i] == polls;
    }
  }

  /** The byte test for the end of the source is a test on frame numbers. */
  lemma WrapsIff(k: nat, n: nat, size: nat)
    requires k < n && size > 0
    ensures Times(size, k) + size == Times(size, k + 1)
    ensures Times(size, k) + size + size > Times(size, n) <==> k + 1 == n
  {
    assert Times(size, k + 2) == Times(size, k) + size + size;
    if k + 2 <= n { TimesGrows(size, k + 2, n); }
  }
}
