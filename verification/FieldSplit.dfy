/** Splitting progressive frames into two fields, line by line. */
module FieldSplit {
  import opened Options
  import opened Blocks

  // ---- Every other line ----

  /** Reading `rows` lines of `ls` bytes, from `at` on and skipping every other line, stays within
      `len` bytes. */
  predicate Fits(len: nat, at: nat, ls: nat, rows: nat) {
    rows == 0 || at + Times(2 * ls, rows - 1) + ls <= len
  }

  lemma FitsLess(len: nat, at: nat, ls: nat, rows: nat, r: nat)
    requires Fits(len, at, ls, rows) && r <= rows
    ensures Fits(len, at, ls, r)
  {
    if r > 0 { TimesGrows(2 * ls, r - 1, rows - 1); }
  }

  /** The lines read. */
  function EveryOther(f: seq<Byte>, at: nat, ls: nat, rows: nat): (r: seq<seq<Byte>>)
    requires Fits(|f|, at, ls, rows)
    ensures |r| == rows && AllOf(r, ls)
  {
    if rows == 0 then [] else
    FitsLess(|f|, at, ls, rows, rows - 1);
    EveryOther(f, at, ls, rows - 1) + [Line(f, at + Times(2 * ls, rows - 1), ls)]
  }

  function Line(f: seq<Byte>, from: nat, ls: nat): (r: seq<Byte>)
    requires from + ls <= |f|
    ensures |r| == ls
  {
    f[from..from + ls]
  }

  /** Line r of a walk is the line 2r further on. */
  lemma {:induction false} LineOfWalk(f: seq<Byte>, at: nat, ls: nat, rows: nat, r: nat)
    requires Fits(|f|, at, ls, rows) && r < rows
    ensures at + Times(2 * ls, r) + ls <= |f|
    ensures EveryOther(f, at, ls, rows)[r] == Line(f, at + Times(2 * ls, r), ls)
  {
    FitsLess(|f|, at, ls, rows, rows - 1);
    if r < rows - 1 { LineOfWalk(f, at, ls, rows - 1, r); }
  }

  lemma NextLine(f: seq<Byte>, at: nat, ls: nat, k: nat)
    requires Fits(|f|, at, ls, k + 1)
    ensures Fits(|f|, at, ls, k)
    ensures Flat(EveryOther(f, at, ls, k + 1)) == Flat(EveryOther(f, at, ls, k)) + Line(f, at + Times(2 * ls, k), ls)
  {
    FitsLess(|f|, at, ls, k + 1, k);
    FlatOneMore(EveryOther(f, at, ls, k), Line(f, at + Times(2 * ls, k), ls));
  }

  // ---- A frame as two fields, and back ----

  ghost predicate SplitFits(len: nat, ls: nat, rows: nat) {
    Fits(len, 0, ls, rows) && Fits(len, ls, ls, rows)
  }

  lemma {:induction false} PairsAreLines(ls: nat, rows: nat)
    ensures Times(2 * ls, rows) == Times(ls, 2 * rows)
  {
    if rows > 0 { PairsAreLines(ls, rows - 1); }
  }

  /** Both walks fit exactly if all the lines do. */
  lemma SplitFitsIff(len: nat, ls: nat, rows: nat)
    ensures SplitFits(len, ls, rows) <==> Times(ls, 2 * rows) <= len
  {
    PairsAreLines(ls, rows);
  }

  /** A frame as two fields, one after the other: lines 0, 2, 4, ... and lines 1, 3, 5, ... */
  function Split(f: seq<Byte>, ls: nat, rows: nat): (r: seq<Byte>)
    requires SplitFits(|f|, ls, rows)
    ensures |r| == 2 * Times(ls, rows)
  {
    FlatSize(EveryOther(f, 0, ls, rows), ls);
    FlatSize(EveryOther(f, ls, ls, rows), ls);
    Flat(EveryOther(f, 0, ls, rows)) + Flat(EveryOther(f, ls, ls, rows))
  }

  /** Lines alternately from one list and the other. */
  function Interleave(xs: seq<seq<Byte>>, ys: seq<seq<Byte>>): (r: seq<seq<Byte>>)
    requires |xs| == |ys|
    ensures |r| == 2 * |xs|
  {
    if xs == [] then [] else
    var n := |xs| - 1;
    Interleave(xs[..n], ys[..n]) + [xs[n], ys[n]]
  }

  lemma {:induction false} InterleaveAt(xs: seq<seq<Byte>>, ys: seq<seq<Byte>>, r: nat)
    requires |xs| == |ys| && r < |xs|
    ensures Interleave(xs, ys)[2 * r] == xs[r] && Interleave(xs, ys)[2 * r + 1] == ys[r]
  {
    var n := |xs| - 1;
    if r < n { InterleaveAt(xs[..n], ys[..n], r); }
  }

  function Merge(g: seq<Byte>, ls: nat, rows: nat): seq<Byte>
    requires |g| == 2 * Times(ls, rows)
  {
    Flat(Interleave(Cut(g[..Times(ls, rows)], ls, rows), Cut(g[Times(ls, rows)..], ls, rows)))
  }

  /** Line r of the first or second field is line 2r or 2r + 1 of the frame. */
  lemma FieldLine(f: seq<Byte>, ls: nat, rows: nat, r: nat)
    requires SplitFits(|f|, ls, rows) && r < rows
    ensures HasBlock(f, ls, 2 * r) && EveryOther(f, 0, ls, rows)[r] == Block(f, ls, 2 * r)
    ensures HasBlock(f, ls, 2 * r + 1) && EveryOther(f, ls, ls, rows)[r] == Block(f, ls, 2 * r + 1)
  {
    SplitFitsIff(|f|, ls, rows);
    BlockExists(f, ls, 2 * rows, 2 * r);
    BlockExists(f, ls, 2 * rows, 2 * r + 1);
    PairsAreLines(ls, r);
    LineOfWalk(f, 0, ls, rows, r);
    LineOfWalk(f, ls, ls, rows, r);
  }

  /** The two walks, interleaved, are all lines in order. */
  lemma InterleaveWalks(f: seq<Byte>, ls: nat, rows: nat)
    requires SplitFits(|f|, ls, rows) && Times(ls, 2 * rows) <= |f|
    ensures Interleave(EveryOther(f, 0, ls, rows), EveryOther(f, ls, ls, rows)) == Cut(f, ls, 2 * rows)
  {
    var woven := Interleave(EveryOther(f, 0, ls, rows), EveryOther(f, ls, ls, rows));
    forall i: nat | i < 2 * rows ensures woven[i] == Cut(f, ls, 2 * rows)[i] {
      var r := i / 2;
      FieldLine(f, ls, rows, r);
      InterleaveAt(EveryOther(f, 0, ls, rows), EveryOther(f, ls, ls, rows), r);
      CutAt(f, ls, 2 * rows, i);
      assert i == 2 * r || i == 2 * r + 1;
    }
  }

  lemma HalvesOf(a: seq<Byte>, b: seq<Byte>)
    ensures (a + b)[..|a|] == a && (a + b)[|a|..] == b
  {
  }

  /** Interleaving the halves restores the lines of the frame. */
  lemma MergeSplit(f: seq<Byte>, ls: nat, rows: nat)
    requires SplitFits(|f|, ls, rows)
    ensures 2 * Times(ls, rows) <= |f|
    ensures Merge(Split(f, ls, rows), ls, rows) == f[..2 * Times(ls, rows)]
  {
    var xs, ys := EveryOther(f, 0, ls, rows), EveryOther(f, ls, ls, rows);
    SplitFitsIff(|f|, ls, rows);
    DoubleTimes(ls, rows);
    CutFlat(xs, ls);
    CutFlat(ys, ls);
    HalvesOf(Flat(xs), Flat(ys));
    InterleaveWalks(f, ls, rows);
    FlatCut(f, ls, 2 * rows);
  }

  lemma {:induction false} DoubleTimes(ls: nat, rows: nat)
    ensures Times(ls, 2 * rows) == 2 * Times(ls, rows)
  {
    if rows > 0 { DoubleTimes(ls, rows - 1); }
  }

  lemma {:induction false} InterleaveIsLines(xs: seq<seq<Byte>>, ys: seq<seq<Byte>>, ls: nat)
    requires |xs| == |ys| && AllOf(xs, ls) && AllOf(ys, ls)
    ensures AllOf(Interleave(xs, ys), ls)
  {
    if xs != [] { InterleaveIsLines(xs[..|xs| - 1], ys[..|ys| - 1], ls); }
  }

  lemma WalkAt(xs: seq<seq<Byte>>, ys: seq<seq<Byte>>, ls: nat, r: nat)
    requires |xs| == |ys| && AllOf(Interleave(xs, ys), ls) && r < |xs|
    requires SplitFits(|Flat(Interleave(xs, ys))|, ls, |xs|)
    ensures EveryOther(Flat(Interleave(xs, ys)), 0, ls, |xs|)[r] == xs[r]
    ensures EveryOther(Flat(Interleave(xs, ys)), ls, ls, |xs|)[r] == ys[r]
  {
    FieldLine(Flat(Interleave(xs, ys)), ls, |xs|, r);
    InterleaveAt(xs, ys, r);
    BlockOfFlat(Interleave(xs, ys), ls, 2 * r);
    BlockOfFlat(Interleave(xs, ys), ls, 2 * r + 1);
  }

  /** The two walks over interleaved lines are the two lists. */
  lemma WalksOfInterleave(xs: seq<seq<Byte>>, ys: seq<seq<Byte>>, ls: nat)
    requires |xs| == |ys| && AllOf(xs, ls) && AllOf(ys, ls)
    ensures var f := Flat(Interleave(xs, ys));
            && SplitFits(|f|, ls, |xs|)
            && EveryOther(f, 0, ls, |xs|) == xs && EveryOther(f, ls, ls, |xs|) == ys
  {
    var f, rows := Flat(Interleave(xs, ys)), |xs|;
    InterleaveIsLines(xs, ys, ls);
    FlatSize(Interleave(xs, ys), ls);
    SplitFitsIff(|f|, ls, rows);
    var es, os := EveryOther(f, 0, ls, rows), EveryOther(f, ls, ls, rows);
    forall r: nat | r < rows ensures es[r] == xs[r] && os[r] == ys[r] {
      WalkAt(xs, ys, ls, r);
    }
    assert es == xs && os == ys;
  }

  /** Every pair of fields comes from exactly one frame. */
  lemma SplitMerge(g: seq<Byte>, ls: nat, rows: nat)
    requires |g| == 2 * Times(ls, rows)
    ensures SplitFits(|Merge(g, ls, rows)|, ls, rows) && Split(Merge(g, ls, rows), ls, rows) == g
  {
    var a, b := g[..Times(ls, rows)], g[Times(ls, rows)..];
    CutsAreBlocks(a, ls, rows);
    CutsAreBlocks(b, ls, rows);
    WalksOfInterleave(Cut(a, ls, rows), Cut(b, ls, rows), ls);
    WholeCut(a, ls, rows);
    WholeCut(b, ls, rows);
    HeadAndTail(g, Times(ls, rows));
  }

  lemma WholeCut(a: seq<Byte>, ls: nat, rows: nat)
    requires |a| == Times(ls, rows)
    ensures Flat(Cut(a, ls, rows)) == a
  {
    FlatCut(a, ls, rows);
    assert a[..|a|] == a;
  }

  lemma HeadAndTail(a: seq<Byte>, n: nat)
    requires n <= |a|
    ensures a[..n] + a[n..] == a
  {
  }

  lemma {:induction false} InterleavePermutes(xs: seq<seq<Byte>>, ys: seq<seq<Byte>>)
    requires |xs| == |ys|
    ensures multiset(Flat(Interleave(xs, ys))) == multiset(Flat(xs)) + multiset(Flat(ys))
  {
    if xs != [] {
      var n := |xs| - 1;
      InterleavePermutes(xs[..n], ys[..n]);
      var woven := Interleave(xs[..n], ys[..n]);
      assert Interleave(xs, ys) == (woven + [xs[n]]) + [ys[n]];
      FlatOneMore(woven + [xs[n]], ys[n]);
      FlatOneMore(woven, xs[n]);
    }
  }

  /** No byte of the lines is lost or repeated. */
  lemma SplitPermutes(f: seq<Byte>, ls: nat, rows: nat)
    requires SplitFits(|f|, ls, rows)
    ensures 2 * Times(ls, rows) <= |f|
    ensures multiset(Split(f, ls, rows)) == multiset(f[..2 * Times(ls, rows)])
  {
    SplitFitsIff(|f|, ls, rows);
    DoubleTimes(ls, rows);
    InterleaveWalks(f, ls, rows);
    FlatCut(f, ls, 2 * rows);
    InterleavePermutes(EveryOther(f, 0, ls, rows), EveryOther(f, ls, ls, rows));
  }

  // ---- Whole files ----

  /** The frames of the output. */
  function Splits(file: seq<Byte>, size: nat, ls: nat, rows: nat, n: nat): (r: seq<seq<Byte>>)
    requires Times(size, n) <= |file| && (n > 0 ==> SplitFits(size, ls, rows))
    ensures |r| == n && AllOf(r, 2 * Times(ls, rows))
  {
    if n == 0 then []
    else Splits(file, size, ls, rows, n - 1) + [Split(Block(file, size, n - 1), ls, rows)]
  }

  lemma {:induction false} SplitsAt(file: seq<Byte>, size: nat, ls: nat, rows: nat, n: nat, i: nat)
    requires Times(size, n) <= |file| && SplitFits(size, ls, rows) && i < n
    ensures HasBlock(file, size, i) && Splits(file, size, ls, rows, n)[i] == Split(Block(file, size, i), ls, rows)
  {
    var last := Split(Block(file, size, n - 1), ls, rows);
    assert Splits(file, size, ls, rows, n) == Splits(file, size, ls, rows, n - 1) + [last];
    if i < n - 1 { SplitsAt(file, size, ls, rows, n - 1, i); }
  }

  lemma NextFrame(file: seq<Byte>, size: nat, ls: nat, rows: nat, i: nat)
    requires Times(size, i + 1) <= |file| && SplitFits(size, ls, rows)
    ensures Flat(Splits(file, size, ls, rows, i + 1))
         == Flat(Splits(file, size, ls, rows, i)) + Split(Block(file, size, i), ls, rows)
  {
    FlatOneMore(Splits(file, size, ls, rows, i), Split(Block(file, size, i), ls, rows));
  }

  /** Merging n frames of `m` bytes, one after the other. */
  function Merges(out: seq<Byte>, m: nat, ls: nat, rows: nat, n: nat): (r: seq<seq<Byte>>)
    requires m == 2 * Times(ls, rows) && Times(m, n) <= |out|
    ensures |r| == n
  {
    if n == 0 then []
    else Merges(out, m, ls, rows, n - 1) + [Merge(Block(out, m, n - 1), ls, rows)]
  }

  lemma {:induction false} MergesAt(out: seq<Byte>, m: nat, ls: nat, rows: nat, n: nat, i: nat)
    requires m == 2 * Times(ls, rows) && Times(m, n) <= |out| && i < n
    ensures HasBlock(out, m, i) && Merges(out, m, ls, rows, n)[i] == Merge(Block(out, m, i), ls, rows)
  {
    if i < n - 1 { MergesAt(out, m, ls, rows, n - 1, i); }
  }

  /** Frame i of the output is the split of frame i of the input: the same bytes, each as often, and
      merging it gives the frame back, but for bytes that do not fill a pair of lines. */
  lemma FramesRestored(file: seq<Byte>, size: nat, ls: nat, rows: nat, n: nat, i: nat)
    requires Times(size, n) <= |file| && SplitFits(size, ls, rows) && i < n
    ensures HasBlock(file, size, i) && 2 * Times(ls, rows) <= size
    ensures HasBlock(Flat(Splits(file, size, ls, rows, n)), 2 * Times(ls, rows), i)
    ensures var frame := Block(Flat(Splits(file, size, ls, rows, n)), 2 * Times(ls, rows), i);
            && frame == Split(Block(file, size, i), ls, rows)
            && Merge(frame, ls, rows) == Block(file, size, i)[..2 * Times(ls, rows)]
            && multiset(frame) == multiset(Block(file, size, i)[..2 * Times(ls, rows)])
  {
    BlockOfFlat(Splits(file, size, ls, rows, n), 2 * Times(ls, rows), i);
    SplitsAt(file, size, ls, rows, n, i);
    MergeSplit(Block(file, size, i), ls, rows);
    SplitPermutes(Block(file, size, i), ls, rows);
  }

  /** If the lines fill a frame, merging the whole output gives the whole input back. */
  lemma FileRestored(file: seq<Byte>, size: nat, ls: nat, rows: nat, n: nat)
    requires Times(size, n) <= |file| && 2 * Times(ls, rows) == size && SplitFits(size, ls, rows)
    ensures |Flat(Splits(file, size, ls, rows, n))| == Times(size, n)
    ensures Flat(Merges(Flat(Splits(file, size, ls, rows, n)), size, ls, rows, n)) == file[..Times(size, n)]
  {
    var out := Flat(Splits(file, size, ls, rows, n));
    FlatSize(Splits(file, size, ls, rows, n), size);
    var ms, cs := Merges(out, size, ls, rows, n), Cut(file, size, n);
    forall i: nat | i < n ensures ms[i] == cs[i] {
      FramesRestored(file, size, ls, rows, n, i);
      MergesAt(out, size, ls, rows, n, i);
      CutAt(file, size, n, i);
      assert cs[i][..size] == cs[i];
    }
    assert ms == cs;
    FlatCut(file, size, n);
  }

  // ---- The code ----

  /** Lines that each of the two loops writes. */
  function Rows(h: nat): nat { (h + 1) / 2 }

  /** One of the two inner loops: `frame` walks over every other line. None is a read beyond the
      buffer. */
  method WriteField(buf: seq<Byte>, start: nat, ls: nat, h: nat, out: seq<Byte>) returns (r: Option<seq<Byte>>)
    ensures r.Some? <==> Fits(|buf|, start, ls, Rows(h))
    ensures r.Some? ==> r.value == out + Flat(EveryOther(buf, start, ls, Rows(h)))
  {
    var written := out;
    var frame: nat, line: nat := start, 0;
    ghost var k: nat, done: seq<Byte> := 0, [];
    while line < h
      invariant line == 2 * k && k <= Rows(h) && frame == start + Times(2 * ls, k)
      invariant Fits(|buf|, start, ls, k) && done == Flat(EveryOther(buf, start, ls, k))
      invariant written == out + done
    {
      if frame + ls > |buf| {
        TooFar(|buf|, start, ls, Rows(h), k);
        return None;
      }
      var next := Line(buf, frame, ls);
      NextLine(buf, start, ls, k);
      Associative(out, done, next);
      written := written + next;
      done := done + next;
      frame := frame + ls * 2;
      line := line + 2;
      k := k + 1;
    }
    return Some(written);
  }

  lemma TooFar(len: nat, at: nat, ls: nat, rows: nat, k: nat)
    requires k < rows && at + Times(2 * ls, k) + ls > len
    ensures !Fits(len, at, ls, rows)
  {
    if Fits(len, at, ls, rows) { FitsLess(len, at, ls, rows, k + 1); }
  }

  lemma Associative(a: seq<Byte>, b: seq<Byte>, c: seq<Byte>)
    ensures (a + b) + c == a + (b + c)
  {
  }

  /** Both fields of the frame in the buffer. */
  method WriteFrame(buf: seq<Byte>, ls: nat, h: nat, out: seq<Byte>) returns (r: Option<seq<Byte>>)
    ensures r.Some? <==> SplitFits(|buf|, ls, Rows(h))
    ensures r.Some? ==> r.value == out + Split(buf, ls, Rows(h))
  {
    r := WriteField(buf, 0, ls, h, out);
    if r.Some? {
      r := WriteField(buf, ls, ls, h, r.value);
    }
  }

  /** The loop over the frames of a file. */
  method WriteFrames(file: seq<Byte>, size: nat, ls: nat, h: nat, frameNum: nat) returns (r: Option<seq<Byte>>)
    requires Times(size, frameNum) <= |file|
    ensures r.Some? <==> frameNum == 0 || SplitFits(size, ls, Rows(h))
    ensures r.Some? ==> r.value == Flat(Splits(file, size, ls, Rows(h), frameNum))
  {
    var out: seq<Byte> := [];
    var i: nat := 0;
    while i < frameNum
      invariant i <= frameNum && Times(size, i) <= |file|
      invariant i > 0 ==> SplitFits(size, ls, Rows(h))
      invariant out == Flat(Splits(file, size, ls, Rows(h), i))
    {
      TimesGrows(size, i + 1, frameNum);
      var w := WriteFrame(Block(file, size, i), ls, h, out);
      if w.None? { return None; }
      NextFrame(file, size, ls, Rows(h), i);
      out := w.value;
      i := i + 1;
    }
    return Some(out);
  }

  /** How a run of the tool ends: with an error, by leaving its memory or dividing by zero, or with
      an output file. */
  datatype Ending = Failed | Crash | Done(out: seq<Byte>)

  /** An odd height whose extra line does not fit in what is left of the buffer. */
  predicate Overreads(size: nat, h: nat)
    requires h > 0
  {
    h % 2 == 1 && size % h < size / h
  }

  lemma TimesQuotient(size: nat, n: nat)
    requires n > 0
    ensures Times(size / n, n) == size - size % n
  {
    TimesIs(size / n, n);
  }

  lemma HeightFitsIff(size: nat, h: nat, ls: nat)
    requires h > 0 && ls == size / h
    ensures SplitFits(size, ls, Rows(h)) <==> !Overreads(size, h)
    ensures h % 2 == 0 ==> 2 * Times(ls, Rows(h)) == size - size % h
  {
    SplitFitsIff(size, ls, Rows(h));
    DoubleTimes(ls, Rows(h));
    TimesQuotient(size, h);
    assert 2 * Rows(h) == if h % 2 == 0 then h else h + 1;
    assert Times(ls, h + 1) == Times(ls, h) + ls;
  }

  lemma FrameCount(len: nat, size: nat)
    requires size > 0
    ensures Times(size, len / size) == len - len % size && (len / size > 0 <==> len >= size)
  {
    TimesIs(size, len / size);
    assert len == len / size * size + len % size;
  }

  /** The two fields of every whole frame of the file, in order. */
  ghost predicate IsOutput(file: seq<Byte>, size: nat, ls: nat, rows: nat, n: nat, out: seq<Byte>) {
    && Times(size, n) <= |file| && (n > 0 ==> SplitFits(size, ls, rows))
    && out == Flat(Splits(file, size, ls, rows, n))
  }

  /** Merging the output gives all whole frames of the file back. */
  ghost predicate Restores(file: seq<Byte>, size: nat, ls: nat, rows: nat, n: nat, out: seq<Byte>) {
    && Times(size, n) <= |file| && Times(2 * Times(ls, rows), n) <= |out|
    && Flat(Merges(out, 2 * Times(ls, rows), ls, rows, n)) == file[..Times(size, n)]
  }

  /** `frame2field`, once files and memory are there. It crashes exactly on a height of zero, and on
      an odd height whose extra line lies outside the buffer if there is a frame to split. An even
      height that divides the frame size loses nothing: merging the output restores every frame. */
  method Frame2Field(file: seq<Byte>, size: nat, h: nat) returns (r: Ending)
    ensures r.Crash? <==> h == 0 || (size > 0 && |file| >= size && h % 2 == 1 && size % h < size / h)
    ensures r.Failed? <==> h > 0 && size == 0
    ensures r.Done? ==> IsOutput(file, size, size / h, Rows(h), |file| / size, r.out)
    ensures r.Done? && h % 2 == 0 && size % h == 0 ==>
              Restores(file, size, size / h, Rows(h), |file| / size, r.out)
  {
    if h == 0 { return Crash; }
    var ls := size / h;
    if size == 0 { return Failed; }
    var frameNum := |file| / size;
    FrameCount(|file|, size);
    HeightFitsIff(size, h, ls);
    var w := WriteFrames(file, size, ls, h, frameNum);
    if w.None? { return Crash; }
    if h % 2 == 0 && size % h == 0 { FileRestored(file, size, ls, Rows(h), frameNum); }
    return Done(w.value);
  }

  /** One frame of three one-byte lines: the first loop stays inside, the second one reads a fourth
      line, behind the buffer. */
  lemma ThreeLinesOverread(buf: seq<Byte>)
    requires |buf| == 3
    ensures Fits(|buf|, 0, 3 / 3, Rows(3)) && !Fits(|buf|, 1, 3 / 3, Rows(3)) && Overreads(3, 3)
  {
    assert Times(2, 1) == 2;
  }

  /** For an even height the whole frame comes back exactly when the lines fill it. */
  lemma WholeFrameIff(f: seq<Byte>, h: nat, ls: nat)
    requires h > 0 && h % 2 == 0 && ls == |f| / h
    ensures SplitFits(|f|, ls, Rows(h))
    ensures Merge(Split(f, ls, Rows(h)), ls, Rows(h)) == f <==> |f| % h == 0
  {
    HeightFitsIff(|f|, h, ls);
    MergeSplit(f, ls, Rows(h));
    assert f[..|f|] == f;
  }
}
