/** Byte strings cut into blocks of one size: the lines of a frame, or the frames of a file. */
module Blocks {
  import opened Modulo

  type Byte = n: nat | n < 0x100

  /** The bytes of n blocks, added up one by one so that proofs stay linear. */
  function Times(size: nat, n: nat): nat {
    if n == 0 then 0 else Times(size, n - 1) + size
  }

  lemma {:induction false} TimesIs(size: nat, n: nat)
    ensures Times(size, n) == n * size
  {
    if n > 0 {
      TimesIs(size, n - 1);
      Distribute(n - 1, 1, size);
    }
  }

  lemma {:induction false} TimesGrows(size: nat, i: nat, n: nat)
    requires i <= n
    ensures Times(size, i) <= Times(size, n)
  {
    if i < n { TimesGrows(size, i, n - 1); }
  }

  ghost predicate HasBlock(s: seq<Byte>, size: nat, i: nat) {
    Times(size, i) + size <= |s|
  }

  function Block(s: seq<Byte>, size: nat, i: nat): (b: seq<Byte>)
    requires HasBlock(s, size, i)
    ensures |b| == size
  {
    s[Times(size, i)..Times(size, i) + size]
  }

  lemma BlockExists(s: seq<Byte>, size: nat, n: nat, i: nat)
    requires Times(size, n) <= |s| && i < n
    ensures HasBlock(s, size, i)
  {
    TimesGrows(size, i + 1, n);
  }

  /** The first n blocks. */
  function Cut(s: seq<Byte>, size: nat, n: nat): (bs: seq<seq<Byte>>)
    requires Times(size, n) <= |s|
    ensures |bs| == n
  {
    if n == 0 then [] else Cut(s, size, n - 1) + [Block(s, size, n - 1)]
  }

  lemma {:induction false} CutAt(s: seq<Byte>, size: nat, n: nat, i: nat)
    requires Times(size, n) <= |s| && i < n
    ensures HasBlock(s, size, i) && Cut(s, size, n)[i] == Block(s, size, i)
  {
    if i < n - 1 { CutAt(s, size, n - 1, i); }
  }

  /** Strings one after the other. */
  function Flat(bs: seq<seq<Byte>>): seq<Byte> {
    if bs == [] then [] else Flat(bs[..|bs| - 1]) + bs[|bs| - 1]
  }

  ghost predicate AllOf(bs: seq<seq<Byte>>, size: nat) {
    forall i: nat :: i < |bs| ==> |bs[i]| == size
  }

  lemma FlatOneMore(bs: seq<seq<Byte>>, b: seq<Byte>)
    ensures Flat(bs + [b]) == Flat(bs) + b
  {
    assert (bs + [b])[..|bs|] == bs;
  }

  /** Cutting and joining are inverse. */
  lemma {:induction false} FlatCut(s: seq<Byte>, size: nat, n: nat)
    requires Times(size, n) <= |s|
    ensures Flat(Cut(s, size, n)) == s[..Times(size, n)]
  {
    if n > 0 {
      FlatCut(s, size, n - 1);
      FlatOneMore(Cut(s, size, n - 1), Block(s, size, n - 1));
      var m := Times(size, n - 1);
      assert s[..m + size] == s[..m] + s[m..m + size];
    }
  }

  lemma {:induction false} FlatSize(bs: seq<seq<Byte>>, size: nat)
    requires AllOf(bs, size)
    ensures |Flat(bs)| == Times(size, |bs|)
  {
    if bs != [] { FlatSize(bs[..|bs| - 1], size); }
  }

  lemma {:induction false} BlockOfFlat(bs: seq<seq<Byte>>, size: nat, i: nat)
    requires AllOf(bs, size) && i < |bs|
    ensures HasBlock(Flat(bs), size, i) && Block(Flat(bs), size, i) == bs[i]
  {
    var n := |bs| - 1;
    FlatSize(bs, size);
    FlatSize(bs[..n], size);
    if i < n {
      BlockOfFlat(bs[..n], size, i);
      BlockOfPrefix(Flat(bs[..n]), bs[n], size, i);
    }
  }

  lemma BlockOfPrefix(s: seq<Byte>, t: seq<Byte>, size: nat, i: nat)
    requires HasBlock(s, size, i)
    ensures HasBlock(s + t, size, i) && Block(s + t, size, i) == Block(s, size, i)
  {
  }

  lemma CutFlat(bs: seq<seq<Byte>>, size: nat)
    requires AllOf(bs, size)
    ensures |Flat(bs)| == Times(size, |bs|) && Cut(Flat(bs), size, |bs|) == bs
  {
    FlatSize(bs, size);
    forall i: nat | i < |bs| ensures Cut(Flat(bs), size, |bs|)[i] == bs[i] {
      BlockOfFlat(bs, size, i);
      CutAt(Flat(bs), size, |bs|, i);
    }
  }

  lemma CutsAreBlocks(s: seq<Byte>, size: nat, n: nat)
    requires Times(size, n) <= |s|
    ensures AllOf(Cut(s, size, n), size)
  {
    forall i: nat | i < n ensures |Cut(s, size, n)[i]| == size { CutAt(s, size, n, i); }
  }
}
