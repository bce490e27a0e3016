/** The comma-separated DMA device list of the FFmpeg plugin: its checks, its tokeniser and the
    round trip between the list and its text. */
module DmaList {
  import opened Options

  /** Sizes of the `devs` buffer, of one device name and of the device table. */
  const LIST_SIZE: nat := 128
  const NAME_SIZE: nat := 64
  const MAX_DEVS: nat := 32

  // ---- The reference: splitting at every comma ----

  /** The entries between commas, empty ones included. */
  function Split(s: string): (ts: seq<string>)
    ensures |ts| >= 1
  {
    if s == "" then [""]
    else
      var rest := Split(s[1..]);
      if s[0] == ',' then [""] + rest else [[s[0]] + rest[0]] + rest[1..]
  }

  function Join(ts: seq<string>): string {
    if |ts| == 0 then "" else if |ts| == 1 then ts[0] else ts[0] + "," + Join(ts[1..])
  }

  /** Joining the entries of any text gives the text back. */
  lemma {:induction false} JoinSplit(s: string)
    ensures Join(Split(s)) == s
  {
    if s != "" {
      JoinSplit(s[1..]);
      var rest := Split(s[1..]);
      if s[0] != ',' {
        assert Split(s)[1..] == rest[1..];
      } else {
        assert Split(s)[1..] == rest;
      }
    }
  }

  /** A comma-free prefix that ends at a comma, or at the end, is the first entry. */
  lemma {:induction false} FirstEntry(s: string, n: nat)
    requires n <= |s| && (n < |s| ==> s[n] == ',') && ',' !in s[..n]
    ensures Split(s) == [s[..n]] + if n < |s| then Split(s[n + 1..]) else []
  {
    if n > 0 {
      assert s[1..][..n - 1] == s[1..n] && s[..n] == [s[0]] + s[1..n];
      assert forall c :: c in s[1..n] ==> c in s[..n];
      assert s[0] in s[..n];
      FirstEntry(s[1..], n - 1);
      assert n < |s| ==> s[1..][n..] == s[n + 1..];
    } else {
      assert s[..0] == "";
    }
  }

  /** Entries contain no comma. */
  lemma {:induction false} EntriesHaveNoComma(s: string)
    ensures forall t :: t in Split(s) ==> ',' !in t
  {
    if s != "" {
      EntriesHaveNoComma(s[1..]);
      var rest := Split(s[1..]);
      assert rest[0] in rest;
    }
  }

  /** Splitting the joined text of any comma-free names gives the names back. */
  lemma {:induction false} SplitJoin(ts: seq<string>)
    requires ts != [] && forall t :: t in ts ==> ',' !in t
    ensures Split(Join(ts)) == ts
  {
    var s, t := Join(ts), ts[0];
    assert t in ts && s[..|t|] == t;
    if |ts| > 1 {
      SplitJoin(ts[1..]);
      assert s[|t| + 1..] == Join(ts[1..]);
    }
    FirstEntry(s, |t|);
    assert ts == [t] + ts[1..];
  }

  // ---- The checks ----

  predicate HasDoubleComma(s: string) {
    exists i :: 0 <= i < |s| - 1 && s[i] == ',' && s[i + 1] == ','
  }

  /** The test for empty entries that the plugin makes before it tokenises. */
  predicate LooksEmpty(s: string) {
    s == "" || s[0] == ',' || s[|s| - 1] == ',' || HasDoubleComma(s)
  }

  /** The test finds exactly the texts with an empty entry. */
  lemma {:induction false} EmptyEntryTest(s: string)
    ensures LooksEmpty(s) <==> "" in Split(s)
  {
    if s == "" {
      assert Split(s)[0] == "";
    } else if s[0] == ',' {
      assert Split(s)[0] == "";
    } else if |s| == 1 {
      FirstEntry(s, 1);
      assert Split(s)[0] == s[..1];
    } else {
      var rest := s[1..];
      EmptyEntryTest(rest);
      var ts := Split(rest);
      if rest[0] == ',' {
        // The first entry is one character long.
        var rest2 := rest[1..];
        FirstEntry(s, 1);
        assert s[2..] == rest2 && Split(s)[0] == s[..1];
        assert forall t :: t in Split(s) <==> t == s[..1] || t in Split(rest2);
        EmptyEntryTest(rest2);
        assert LooksEmpty(s) <==> LooksEmpty(rest2) by {
          TailHasDoubleComma(s);
          TailHasDoubleComma(rest);
        }
      } else {
        TailHasDoubleComma(s);
        EntryIsNotEmpty(rest);
      }
    }
  }

  lemma TailHasDoubleComma(s: string)
    requires |s| >= 1
    ensures HasDoubleComma(s) <==> HasDoubleComma(s[1..]) || (|s| >= 2 && s[0] == ',' && s[1] == ',')
  {
    if i :| 0 <= i < |s| - 1 && s[i] == ',' && s[i + 1] == ',' {
      if i > 0 {
        assert s[1..][i - 1] == ',' && s[1..][i - 1 + 1] == ',';
      }
    }
    if i :| 0 <= i < |s[1..]| - 1 && s[1..][i] == ',' && s[1..][i + 1] == ',' {
      assert s[i + 1] == ',' && s[i + 1 + 1] == ',';
    }
  }

  lemma EntryIsNotEmpty(s: string)
    requires s != "" && s[0] != ','
    ensures Split(s)[0] != ""
  {
  }

  /** What the plugin accepts, in terms of the entries. */
  predicate Acceptable(s: string) {
    && |s| < LIST_SIZE
    && "" !in Split(s)
    && |Split(s)| <= MAX_DEVS
    && forall t :: t in Split(s) ==> |t| < NAME_SIZE
  }

  // ---- The parser ----

  /** What is left of the entries from position `pos` on. */
  function Remaining(s: string, pos: nat): seq<string>
    requires pos <= |s|
  {
    if pos < |s| then Split(s[pos..]) else []
  }

  /** `token` starts at `pos`, runs to the next comma or the end, and `next` is what follows. */
  predicate TokenAt(s: string, pos: nat, token: string, next: nat) {
    && pos + |token| <= |s| && token == s[pos..pos + |token|] && ',' !in token
    && (pos + |token| < |s| ==> s[pos + |token|] == ',')
    && next == if pos + |token| < |s| then pos + |token| + 1 else |s|
  }

  /** `strtok_r` from position `pos`: skip commas, then take everything up to the next comma. */
  method NextToken(s: string, pos: nat) returns (found: bool, token: string, next: nat)
    requires pos <= |s|
    ensures pos <= next <= |s|
    ensures pos == |s| ==> !found
    ensures pos < |s| && s[pos] != ',' ==> found && TokenAt(s, pos, token, next)
  {
    var start := pos;
    while start < |s| && s[start] == ','
      invariant pos <= start <= |s|
      invariant pos < |s| && s[pos] != ',' ==> start == pos
    {
      start := start + 1;
    }
    if start == |s| { return false, "", start; }
    var end := start;
    while end < |s| && s[end] != ','
      invariant start <= end <= |s| && ',' !in s[start..end]
    {
      end := end + 1;
    }
    found, token := true, s[start..end];
    next := if end < |s| then end + 1 else end;
  }

  /** One token is one entry. */
  lemma TokenIsEntry(s: string, pos: nat, token: string, next: nat)
    requires pos < |s| && TokenAt(s, pos, token, next) && s[|s| - 1] != ','
    ensures next <= |s| && Remaining(s, pos) == [token] + Remaining(s, next)
  {
    var rest := s[pos..];
    assert rest[..|token|] == token;
    FirstEntry(rest, |token|);
    if pos + |token| < |s| {
      assert rest[|token| + 1..] == s[next..];
    }
  }

  /** A token is followed directly by another one, or by the end. */
  lemma NoCommaAfterToken(s: string, pos: nat, token: string, next: nat)
    requires !LooksEmpty(s) && pos < |s| && TokenAt(s, pos, token, next)
    ensures next < |s| ==> s[next] != ','
  {
    if next < |s| {
      assert s[next - 1] == ',';
      assert s[next - 1 + 1] == ',' ==> HasDoubleComma(s);
    }
  }

  lemma Advance(all: seq<string>, devs: seq<string>, s: string, pos: nat, token: string, next: nat)
    requires !LooksEmpty(s) && pos < |s| && TokenAt(s, pos, token, next)
    requires all == devs + Remaining(s, pos)
    ensures next <= |s| && all == (devs + [token]) + Remaining(s, next)
    ensures |devs| < |all| && token in all && (next < |s| ==> s[next] != ',')
  {
    TokenIsEntry(s, pos, token, next);
    NoCommaAfterToken(s, pos, token, next);
    assert all[|devs|] == token;
  }

  /** The entries of a list that passes the first checks, unless there are too many or one is too
      long. */
  method Tokenise(s: string, ghost all: seq<string>) returns (r: Option<seq<string>>)
    requires !LooksEmpty(s) && all == Remaining(s, 0)
    ensures r.Some? <==> |all| <= MAX_DEVS && forall t :: t in all ==> |t| < NAME_SIZE
    ensures r.Some? ==> r.value == all
  {
    var devs: seq<string> := [];
    ghost var pos := 0;
    var found, token, next := NextToken(s, 0);
    while found
      invariant pos <= |s| && (found <==> pos < |s|) && (found ==> TokenAt(s, pos, token, next))
      invariant all == devs + Remaining(s, pos)
      invariant |devs| <= MAX_DEVS && forall t :: t in devs ==> |t| < NAME_SIZE
      decreases |s| - pos
    {
      Advance(all, devs, s, pos, token, next);
      if |devs| >= MAX_DEVS { return None; }
      if |token| >= NAME_SIZE { return None; }
      devs := devs + [token];
      pos := next;
      found, token, next := NextToken(s, next);
    }
    return Some(devs);
  }

  /** The parsing code of `mtl_dev_build_params`: the list is accepted exactly when it is
      acceptable, and then yields its entries, which joined give the text back. */
  method Parse(s: string) returns (r: Option<seq<string>>)
    ensures r.Some? <==>
            |s| < 128 && "" !in Split(s) && |Split(s)| <= 32 && forall t :: t in Split(s) ==> |t| < 64
    ensures r.Some? <==> Acceptable(s)
    ensures r.Some? ==> r.value == Split(s) && Join(r.value) == s
    ensures r.Some? ==> forall t :: t in r.value ==> ',' !in t
  {
    if |s| >= LIST_SIZE { return None; }
    EmptyEntryTest(s);
    if LooksEmpty(s) { return None; }
    assert s[0..] == s;
    JoinSplit(s);
    EntriesHaveNoComma(s);
    r := Tokenise(s, Split(s));
  }
}
