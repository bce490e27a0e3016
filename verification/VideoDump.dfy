/** The video receiver sample: a dump file of three frames that is overwritten in turn. */
module VideoDump {
  import opened Options
  import opened Blocks
  import opened Modulo

  const SLOTS: nat := 3

  // ---- The specification ----

  type Picture = seq<Byte>

  /** Contents of the slots after some frames: frame number k overwrites slot k modulo 3. */
  function After(blank: seq<Picture>, frames: seq<Picture>): (r: seq<Picture>)
    requires |blank| == SLOTS
    ensures |r| == SLOTS
  {
    if frames == [] then blank
    else var k := |frames| - 1; After(blank, frames[..k])[k % SLOTS := frames[k]]
  }

  /** Frame i is the latest of k frames that belongs to slot j. */
  ghost predicate Latest(i: nat, k: nat, j: nat) {
    i < k && i % 3 == j && forall m: nat :: i < m < k ==> m % 3 != j
  }

  /** Slot j holds the latest frame whose number is j modulo 3, and what it held before if there is
      none: the dump always has the last three frames. */
  lemma {:induction false} SlotHoldsLatest(blank: seq<Picture>, frames: seq<Picture>, j: nat)
    requires |blank| == SLOTS && j < SLOTS
    ensures forall i: nat :: Latest(i, |frames|, j) ==> After(blank, frames)[j] == frames[i]
    ensures |frames| <= j ==> After(blank, frames)[j] == blank[j]
    ensures |frames| > j ==> exists i: nat :: Latest(i, |frames|, j)
  {
    if frames != [] {
      var k := |frames| - 1;
      SlotHoldsLatest(blank, frames[..k], j);
      if k % SLOTS == j {
        assert Latest(k, k + 1, j);
      } else {
        forall i: nat | Latest(i, k + 1, j) ensures Latest(i, k, j) && frames[..k][i] == frames[i] {
        }
        if k > j {
          var i: nat :| Latest(i, k, j);
          assert Latest(i, k + 1, j);
        }
      }
    }
  }

  /** The slots of a dump file. */
  function SlotsOf(bytes: seq<Byte>, size: nat): (r: seq<Picture>)
    requires |bytes| == SLOTS * size
    ensures |r| == SLOTS
  {
    [bytes[..size], bytes[size..2 * size], bytes[2 * size..]]
  }

  lemma ThreeSlots(size: nat)
    ensures Times(size, 0) == 0 && Times(size, 1) == size && Times(size, 2) == 2 * size && Times(size, 3) == 3 * size
  {
    assert Times(size, 2) == Times(size, 1) + size;
  }

  lemma Overwrite(bytes: seq<Byte>, size: nat, k: nat, frame: Picture)
    requires |bytes| == SLOTS * size && k < SLOTS && |frame| == size
    ensures Times(size, k) + size <= |bytes|
    ensures SlotsOf(bytes[..Times(size, k)] + frame + bytes[Times(size, k) + size..], size) == SlotsOf(bytes, size)[k := frame]
  {
    ThreeSlots(size);
    if k == 0 {
      Overwritten(bytes, [], frame, bytes[size..], size);
    } else if k == 1 {
      Overwritten(bytes, bytes[..size], frame, bytes[2 * size..], size);
    } else {
      Overwritten(bytes, bytes[..2 * size], frame, [], size);
    }
  }

  lemma Overwritten(bytes: seq<Byte>, a: seq<Byte>, frame: Picture, b: seq<Byte>, size: nat)
    requires |bytes| == SLOTS * size && |frame| == size && |a| + size + |b| == |bytes|
    requires a == bytes[..|a|] && b == bytes[|a| + size..]
    ensures |a| == 0 ==> SlotsOf(a + frame + b, size) == SlotsOf(bytes, size)[0 := frame]
    ensures |a| == size ==> SlotsOf(a + frame + b, size) == SlotsOf(bytes, size)[1 := frame]
    ensures |a| == 2 * size ==> SlotsOf(a + frame + b, size) == SlotsOf(bytes, size)[2 := frame]
  {
    var c, d := a + frame + b, bytes;
    if |a| == 0 {
      assert c[..size] == frame && c[size..2 * size] == d[size..2 * size] && c[2 * size..] == d[2 * size..];
    }
    if |a| == size {
      assert c[..size] == d[..size] && c[size..2 * size] == frame && c[2 * size..] == d[2 * size..];
    }
    if |a| == 2 * size {
      assert c[..size] == d[..size] && c[size..2 * size] == d[size..2 * size] && c[2 * size..] == frame;
    }
  }

  // ---- The code ----

  /** Pictures that came in time. */
  function Received(polls: seq<Option<Picture>>): seq<Picture> {
    if polls == [] then []
    else
      var last := polls[|polls| - 1];
      Received(polls[..|polls| - 1]) + (if last.Some? then [last.value] else [])
  }

  class Receiver {
    const size: nat
    /** Whether a dump file is open, and its memory map. */
    const dumping: bool
    const dump: array<Byte>
    var cursor: nat
    var fbRecv: nat

    /** `rx_st20p_open_source`, or none when the dump is off. */
    constructor (size: nat, dumping: bool, file: array<Byte>)
      requires size > 0 && file.Length == SLOTS * size
      ensures this.size == size && this.dumping == dumping && dump == file
      ensures cursor == 0 && fbRecv == 0
    {
      this.size, this.dumping, dump, cursor, fbRecv := size, dumping, file, 0, 0;
    }

    ghost function Slots(): (r: seq<Picture>)
      reads this, dump
      requires dump.Length == SLOTS * size
      ensures |r| == SLOTS
    {
      SlotsOf(dump[..], size)
    }

    /** The number of the next slot, where SLOTS means that the cursor stands at the end. */
    ghost predicate Valid()
      reads this
    {
      && size > 0 && dump.Length == SLOTS * size
      && (dumping ==>
            cursor == Times(size, fbRecv % SLOTS) || (cursor == SLOTS * size && fbRecv % SLOTS == 0))
    }

    /** `rx_st20p_consume_frame`. */
    method Consume(frame: Picture)
      requires Valid() && |frame| == size
      modifies this, dump
      ensures Valid() && fbRecv == old(fbRecv) + 1
      ensures Slots() == if dumping then old(Slots())[old(fbRecv) % SLOTS := frame] else old(Slots())
    {
      ghost var k := fbRecv % SLOTS;
      fbRecv := fbRecv + 1;
      Advance(fbRecv - 1, 1, SLOTS);
      if !dumping { return; }
      if cursor + size > dump.Length { cursor := 0; }
      assert cursor == Times(size, k) by { ThreeSlots(size); }
      Store(cursor, frame);
      Overwrite(old(dump[..]), size, k, frame);
      cursor := cursor + size;
      ThreeSlots(size);
    }

    method Store(at: nat, frame: Picture)
      requires at + |frame| <= dump.Length
      modifies dump
      ensures dump[..] == old(dump[..])[..at] + frame + old(dump[..])[at + |frame|..]
    {
      forall i | 0 <= i < |frame| { dump[at + i] := frame[i]; }
    }

    /** `rx_st20p_frame_thread` from the start. */
    method FrameThread(polls: seq<Option<Picture>>)
      requires size > 0 && dump.Length == 3 * size && cursor == 0 && fbRecv == 0
      requires forall i :: 0 <= i < |polls| && polls[i].Some? ==> |polls[i].value| == size
      modifies this, dump
      ensures Valid() && fbRecv == |Received(polls)|
      ensures var start := [old(dump[..])[..size], old(dump[..])[size..2 * size], old(dump[..])[2 * size..]];
              var slots := if dumping then After(start, Received(polls)) else start;
              dump[..size] == slots[0] && dump[size..2 * size] == slots[1] && dump[2 * size..] == slots[2]
      ensures Slots() == if dumping then After(old(Slots()), Received(polls)) else old(Slots())
    {
      var i := 0;
      ghost var start, frames := Slots(), [];
      while i < |polls|
        invariant 0 <= i <= |polls| && Valid() && frames == Received(polls[..i]) && fbRecv == |frames|
        invariant dumping ==> Slots() == After(start, frames)
        invariant !dumping ==> Slots() == start
      {
        ReceivedNext(polls, i);
        if polls[i].Some? {
          AfterOneMore(start, frames, polls[i].value);
          Consume(polls[i].value);
          frames := frames + [polls[i].value];
        }
        i := i + 1;
      }
      assert polls[..i] == polls;
      assert dump[..][..size] == dump[..size] && dump[..][2 * size..] == dump[2 * size..];
      assert dump[..][size..2 * size] == dump[size..2 * size];
    }
  }

  /** Exactly the pictures that came, in order. */
  lemma {:induction false} ReceivedAppend(a: seq<Option<Picture>>, b: seq<Option<Picture>>)
    ensures Received(a + b) == Received(a) + Received(b)
  {
    if b == [] {
      assert a + b == a;
    } else {
      var n := |b| - 1;
      ReceivedAppend(a, b[..n]);
      assert (a + b)[..|a| + n] == a + b[..n] && (a + b)[|a| + n] == b[n];
    }
  }

  lemma ReceivedOne(poll: Option<Picture>)
    ensures Received([poll]) == (if poll.Some? then [poll.value] else [])
  {
    assert [poll][..0] == [];
  }

  lemma ReceivedNext(polls: seq<Option<Picture>>, i: nat)
    requires i < |polls|
    ensures polls[i].Some? ==> Received(polls[..i + 1]) == Received(polls[..i]) + [polls[i].value]
    ensures polls[i].None? ==> Received(polls[..i + 1]) == Received(polls[..i])
  {
    assert polls[..i + 1][..i] == polls[..i];
  }

  lemma AfterOneMore(blank: seq<Picture>, frames: seq<Picture>, frame: Picture)
    requires |blank| == SLOTS
    ensures After(blank, frames + [frame]) == After(blank, frames)[|frames| % SLOTS := frame]
  {
    var more := frames + [frame];
    assert more[..|frames|] == frames && more[|frames|] == frame;
  }
}
