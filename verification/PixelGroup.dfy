/** The 4:2:2 pixel groups of section 4.3 of RFC 4175: two pixels share one Cb and one Cr sample, and
    the four samples form one big-endian bit string in the order Cb, Y0, Cr, Y1. The structs split
    every sample over bytes with bit-fields; here a field is a number below a power of two. */
module PixelGroup {
  import opened Modulo

  type U2 = n: nat | n < 0x4
  type U4 = n: nat | n < 0x10
  type U6 = n: nat | n < 0x40
  type U8 = n: nat | n < 0x100
  type U10 = n: nat | n < 0x400
  type U12 = n: nat | n < 0x1000
  type U16 = n: nat | n < 0x1_0000

  // ---- Reading a bit string: one number, whatever the digit size ----

  function FromDigits(ds: seq<nat>, base: nat): nat {
    if ds == [] then 0 else FromDigits(ds[..|ds| - 1], base) * base + ds[|ds| - 1]
  }

  /** Digits below the base are determined by their number. */
  lemma {:induction false} DigitsAreUnique(ds: seq<nat>, es: seq<nat>, base: nat)
    requires |ds| == |es| && FromDigits(ds, base) == FromDigits(es, base)
    requires forall i :: 0 <= i < |ds| ==> ds[i] < base && es[i] < base
    ensures ds == es
  {
    if ds != [] {
      var n := |ds| - 1;
      DivisionIsUnique(FromDigits(ds[..n], base), ds[n], FromDigits(es[..n], base), es[n], base);
      DigitsAreUnique(ds[..n], es[..n], base);
      assert ds == ds[..n] + [ds[n]] && es == es[..n] + [es[n]];
    }
  }

  lemma FiveDigits(a: nat, b: nat, c: nat, d: nat, e: nat, base: nat)
    ensures FromDigits([a, b, c, d, e], base) == (((a * base + b) * base + c) * base + d) * base + e
  {
    assert [a, b, c, d, e][..4] == [a, b, c, d];
    FourDigits(a, b, c, d, base);
  }

  lemma FourDigits(a: nat, b: nat, c: nat, d: nat, base: nat)
    ensures FromDigits([a, b, c, d], base) == ((a * base + b) * base + c) * base + d
  {
    assert [a, b, c, d][..3] == [a, b, c] && [a, b, c][..2] == [a, b] && [a, b][..1] == [a];
    assert FromDigits([a], base) == a;
    assert FromDigits([a, b], base) == a * base + b;
    assert FromDigits([a, b, c], base) == (a * base + b) * base + c;
  }

  lemma SixDigits(a: nat, b: nat, c: nat, d: nat, e: nat, f: nat, base: nat)
    ensures FromDigits([a, b, c, d, e, f], base) == ((((a * base + b) * base + c) * base + d) * base + e) * base + f
  {
    assert [a, b, c, d, e, f][..5] == [a, b, c, d, e];
    FiveDigits(a, b, c, d, e, base);
  }

  // ---- 16-bit counters ----

  /** The four local variables of the fill loops, and their step: `uint16_t` wraps. */
  datatype Counters = Counters(cb: U16, y0: U16, cr: U16, y1: U16) {
    function Next(): Counters {
      Counters((cb + 1) % 0x1_0000, (y0 + 2) % 0x1_0000, (cr + 1) % 0x1_0000, (y1 + 2) % 0x1_0000)
    }
  }

  const FIRST := Counters(cb := 0x222, y0 := 0x111, cr := 0x333, y1 := 0x112)

  /** Their values in round k. */
  function Count(k: nat): Counters {
    if k == 0 then FIRST else Count(k - 1).Next()
  }

  /** A counter that wraps at 16 bits still counts modulo every smaller power of two. */
  lemma {:induction false} CountModulo(k: nat, m: nat, d: nat)
    requires m * d == 0x1_0000
    ensures m > 0
    ensures Count(k).cb % m == (0x222 + k) % m && Count(k).y0 % m == (0x111 + 2 * k) % m
    ensures Count(k).cr % m == (0x333 + k) % m && Count(k).y1 % m == (0x112 + 2 * k) % m
  {
    if k > 0 {
      CountModulo(k - 1, m, d);
      var c := Count(k - 1);
      StepModulo(c.cb, 0x222 + k - 1, 1, m, d);
      StepModulo(c.y0, 0x111 + 2 * k - 2, 2, m, d);
      StepModulo(c.cr, 0x333 + k - 1, 1, m, d);
      StepModulo(c.y1, 0x112 + 2 * k - 2, 2, m, d);
    }
  }

  lemma StepModulo(c: nat, n: nat, inc: nat, m: nat, d: nat)
    requires m * d == 0x1_0000 && m > 0 && c % m == n % m
    ensures (c + inc) % 0x1_0000 % m == (n + inc) % m
  {
    LowDigits(c + inc, m, d);
    SumOfRemainder(c, inc, m);
    SumOfRemainder(n, inc, m);
  }

  // ---- 10 bit ----

  datatype Samples10 = Samples10(cb: U10, y0: U10, cr: U10, y1: U10) {
    function Digits(): seq<nat> { [cb, y0, cr, y1] }
  }

  /** `st20_rfc4175_422_10_pg2_be`; an underscore marks the low-order part of a sample. */
  datatype Group10 = Group10(cb: U8, y0: U6, cb_: U2, cr: U4, y0_: U4, y1: U2, cr_: U6, y1_: U8)

  /** The bytes of the struct as a little-endian host lays it out: the first declared field of a
      byte takes its low bits. */
  function Memory10(g: Group10): (bs: seq<U8>)
    ensures |bs| == 5
  {
    [g.cb, g.y0 + g.cb_ * 64, g.cr + g.y0_ * 16, g.y1 + g.cr_ * 4, g.y1_]
  }

  function Load10(bs: seq<U8>): Group10
    requires |bs| == 5
  {
    Group10(bs[0], bs[1] % 64, bs[1] / 64, bs[2] % 16, bs[2] / 16, bs[3] % 4, bs[3] / 4, bs[4])
  }

  /** Storing four samples through the split fields. */
  function Pack10(s: Samples10): Group10 {
    Group10(cb := s.cb / 4, cb_ := s.cb % 4,
            y0 := s.y0 / 16, y0_ := s.y0 % 16,
            cr := s.cr / 64, cr_ := s.cr % 64,
            y1 := s.y1 / 256, y1_ := s.y1 % 256)
  }

  function Unpack10(g: Group10): Samples10 {
    Samples10(g.cb * 4 + g.cb_, g.y0 * 16 + g.y0_, g.cr * 64 + g.cr_, g.y1 * 256 + g.y1_)
  }

  lemma PackUnpack10(g: Group10, s: Samples10)
    ensures Pack10(Unpack10(g)) == g && Unpack10(Pack10(s)) == s
  {
  }

  lemma LoadMemory10(g: Group10, bs: seq<U8>)
    requires |bs| == 5
    ensures Load10(Memory10(g)) == g && Memory10(Load10(bs)) == bs
  {
  }

  /** The bytes of a struct and its samples spell the same 40-bit number. */
  lemma MemoryIsBitString10(g: Group10)
    ensures FromDigits(Memory10(g), 0x100) == FromDigits(Unpack10(g).Digits(), 0x400)
  {
    var bs, s := Memory10(g), Unpack10(g);
    FiveDigits(bs[0], bs[1], bs[2], bs[3], bs[4], 0x100);
    FourDigits(s.cb, s.y0, s.cr, s.y1, 0x400);
  }

  /** Five bytes are the packed form of four samples exactly when they spell the samples' bit string:
      the split fields implement the wire format and nothing else does. */
  lemma WireFormat10(bs: seq<U8>, s: Samples10)
    requires |bs| == 5
    ensures bs == Memory10(Pack10(s)) <==> FromDigits(bs, 0x100) == FromDigits(s.Digits(), 0x400)
  {
    MemoryIsBitString10(Pack10(s));
    PackUnpack10(Pack10(s), s);
    if FromDigits(bs, 0x100) == FromDigits(s.Digits(), 0x400) {
      DigitsAreUnique(bs, Memory10(Pack10(s)), 0x100);
    }
  }

  /** The test pattern: group number k. */
  function Pattern10(k: nat): Samples10 {
    Samples10((0x222 + k) % 0x400, (0x111 + 2 * k) % 0x400, (0x333 + k) % 0x400, (0x112 + 2 * k) % 0x400)
  }

  /** What the loop stores: shifted counters, cut to the width of each field. */
  function Truncate10(c: Counters): Group10 {
    Group10(cb := c.cb / 4 % 0x100, cb_ := c.cb % 0x4,
            y0 := c.y0 / 16 % 0x40, y0_ := c.y0 % 0x10,
            cr := c.cr / 64 % 0x10, cr_ := c.cr % 0x40,
            y1 := c.y1 / 256 % 0x4, y1_ := c.y1 % 0x100)
  }

  ghost predicate Filled10(gs: seq<Group10>) {
    forall k: nat :: k < |gs| ==> gs[k] == Truncate10(Count(k))
  }

  /** `fill_rfc4175_422_10_pg2_data`: in spite of counters that wrap at 16 bits and fields that
      truncate, group k on the wire is the bit string of the k-th pattern. */
  method Fill10(data: array<Group10>, w: int, h: int)
    requires data.Length >= w * h / 2
    modifies data
    ensures forall k: nat :: k < w * h / 2 ==>
              FromDigits(Memory10(data[k]), 0x100) ==
              FromDigits([(0x222 + k) % 0x400, (0x111 + 2 * k) % 0x400, (0x333 + k) % 0x400, (0x112 + 2 * k) % 0x400], 0x400)
    ensures forall k: nat :: w * h / 2 <= k < data.Length ==> data[k] == old(data[k])
  {
    var pgSize := w * h / 2;
    var c := FIRST;
    var pg := 0;
    while pg < pgSize
      invariant 0 <= pg && (pg <= pgSize || pg == 0)
      invariant c == Count(pg) && Filled10(data[..pg])
      invariant forall k: nat :: pg <= k < data.Length ==> data[k] == old(data[k])
    {
      data[pg] := Truncate10(c);
      assert data[..pg + 1] == data[..pg] + [data[pg]];
      pg := pg + 1;
      c := c.Next();
    }
    forall k: nat | k < pgSize
      ensures FromDigits(Memory10(data[k]), 0x100) ==
              FromDigits([(0x222 + k) % 0x400, (0x111 + 2 * k) % 0x400, (0x333 + k) % 0x400, (0x112 + 2 * k) % 0x400], 0x400)
    {
      assert data[k] == data[..pg][k];
      TruncateIsPack10(k);
      WireFormat10(Memory10(data[k]), Pattern10(k));
    }
  }

  /** Truncating the 16-bit counters to the split fields packs the samples modulo 0x400. */
  lemma TruncateIsPack10(k: nat)
    ensures Truncate10(Count(k)) == Pack10(Pattern10(k))
  {
    var c := Count(k);
    CountModulo(k, 0x400, 64);
    LowDigits(c.cb, 4, 0x100);
    LowDigits(c.y0, 16, 0x40);
    LowDigits(c.cr, 64, 0x10);
    LowDigits(c.y1, 256, 0x4);
  }

  // ---- 12 bit ----

  datatype Samples12 = Samples12(cb: U12, y0: U12, cr: U12, y1: U12) {
    function Digits(): seq<nat> { [cb, y0, cr, y1] }
  }

  /** `st20_rfc4175_422_12_pg2_be`. */
  datatype Group12 = Group12(cb: U8, y0: U4, cb_: U4, y0_: U8, cr: U8, y1: U4, cr_: U4, y1_: U8)

  function Memory12(g: Group12): (bs: seq<U8>)
    ensures |bs| == 6
  {
    [g.cb, g.y0 + g.cb_ * 16, g.y0_, g.cr, g.y1 + g.cr_ * 16, g.y1_]
  }

  function Load12(bs: seq<U8>): Group12
    requires |bs| == 6
  {
    Group12(bs[0], bs[1] % 16, bs[1] / 16, bs[2], bs[3], bs[4] % 16, bs[4] / 16, bs[5])
  }

  function Pack12(s: Samples12): Group12 {
    Group12(cb := s.cb / 16, cb_ := s.cb % 16,
            y0 := s.y0 / 256, y0_ := s.y0 % 256,
            cr := s.cr / 16, cr_ := s.cr % 16,
            y1 := s.y1 / 256, y1_ := s.y1 % 256)
  }

  function Unpack12(g: Group12): Samples12 {
    Samples12(g.cb * 16 + g.cb_, g.y0 * 256 + g.y0_, g.cr * 16 + g.cr_, g.y1 * 256 + g.y1_)
  }

  lemma PackUnpack12(g: Group12, s: Samples12)
    ensures Pack12(Unpack12(g)) == g && Unpack12(Pack12(s)) == s
  {
  }

  lemma LoadMemory12(g: Group12, bs: seq<U8>)
    requires |bs| == 6
    ensures Load12(Memory12(g)) == g && Memory12(Load12(bs)) == bs
  {
  }

  lemma MemoryIsBitString12(g: Group12)
    ensures FromDigits(Memory12(g), 0x100) == FromDigits(Unpack12(g).Digits(), 0x1000)
  {
    var bs, s := Memory12(g), Unpack12(g);
    SixDigits(bs[0], bs[1], bs[2], bs[3], bs[4], bs[5], 0x100);
    FourDigits(s.cb, s.y0, s.cr, s.y1, 0x1000);
  }

  lemma WireFormat12(bs: seq<U8>, s: Samples12)
    requires |bs| == 6
    ensures bs == Memory12(Pack12(s)) <==> FromDigits(bs, 0x100) == FromDigits(s.Digits(), 0x1000)
  {
    MemoryIsBitString12(Pack12(s));
    PackUnpack12(Pack12(s), s);
    if FromDigits(bs, 0x100) == FromDigits(s.Digits(), 0x1000) {
      DigitsAreUnique(bs, Memory12(Pack12(s)), 0x100);
    }
  }

  function Pattern12(k: nat): Samples12 {
    Samples12((0x222 + k) % 0x1000, (0x111 + 2 * k) % 0x1000, (0x333 + k) % 0x1000, (0x112 + 2 * k) % 0x1000)
  }

  /** What the loop stores: shifted counters, cut to the width of each field. */
  function Truncate12(c: Counters): Group12 {
    Group12(cb := c.cb / 16 % 0x100, cb_ := c.cb % 0x10,
            y0 := c.y0 / 256 % 0x10, y0_ := c.y0 % 0x100,
            cr := c.cr / 16 % 0x100, cr_ := c.cr % 0x10,
            y1 := c.y1 / 256 % 0x10, y1_ := c.y1 % 0x100)
  }

  ghost predicate Filled12(gs: seq<Group12>) {
    forall k: nat :: k < |gs| ==> gs[k] == Truncate12(Count(k))
  }

  /** `fill_rfc4175_422_12_pg2_data`. */
  method Fill12(data: array<Group12>, w: int, h: int)
    requires data.Length >= w * h / 2
    modifies data
    ensures forall k: nat :: k < w * h / 2 ==>
              FromDigits(Memory12(data[k]), 0x100) ==
              FromDigits([(0x222 + k) % 0x1000, (0x111 + 2 * k) % 0x1000, (0x333 + k) % 0x1000, (0x112 + 2 * k) % 0x1000], 0x1000)
    ensures forall k: nat :: w * h / 2 <= k < data.Length ==> data[k] == old(data[k])
  {
    var pgSize := w * h / 2;
    var c := FIRST;
    var pg := 0;
    while pg < pgSize
      invariant 0 <= pg && (pg <= pgSize || pg == 0)
      invariant c == Count(pg) && Filled12(data[..pg])
      invariant forall k: nat :: pg <= k < data.Length ==> data[k] == old(data[k])
    {
      data[pg] := Truncate12(c);
      assert data[..pg + 1] == data[..pg] + [data[pg]];
      pg := pg + 1;
      c := c.Next();
    }
    forall k: nat | k < pgSize
      ensures FromDigits(Memory12(data[k]), 0x100) ==
              FromDigits([(0x222 + k) % 0x1000, (0x111 + 2 * k) % 0x1000, (0x333 + k) % 0x1000, (0x112 + 2 * k) % 0x1000], 0x1000)
    {
      assert data[k] == data[..pg][k];
      TruncateIsPack12(k);
      WireFormat12(Memory12(data[k]), Pattern12(k));
    }
  }

  /** Truncating the 16-bit counters to the split fields packs the samples modulo 0x1000. */
  lemma TruncateIsPack12(k: nat)
    ensures Truncate12(Count(k)) == Pack12(Pattern12(k))
  {
    var c := Count(k);
    CountModulo(k, 0x1000, 16);
    LowDigits(c.cb, 16, 0x100);
    LowDigits(c.y0, 256, 0x10);
    LowDigits(c.cr, 16, 0x100);
    LowDigits(c.y1, 256, 0x10);
  }

}
