/**
 Pooling A/A measurements, one per runner stop, and taking them apart again. A row's column per
 build is the windows' columns in order, with one dropped round between two windows, so that no
 run of consecutive clean rounds straddles two stops.
 */
module AaNull {
  import opened Options

  /** What one run of a row measured; nothing here looks inside it. */
  type Metric = int

  /** One build's rounds for one row; `None` marks a dropped round. */
  type Column = seq<Option<Metric>>

  /** What a measurement keeps of each of its measuring windows. */
  datatype Meta = Meta(date: string, host: string, rounds: nat)

  /** A measurement: its builds, its measured rounds, each row's columns (one per build), its windows. */
  datatype Raw = Raw(builds: seq<string>, rounds: nat, samples: map<string, seq<Column>>, windows: seq<Meta>)
  {
    /** The length of every column: the rounds, and a dropped round between two windows. */
    function Span(): int {
      rounds + |windows| - 1
    }

    ghost predicate Valid() {
      && windows != [] && rounds == RoundsOf(windows)
      && forall k :: k in samples ==> WellShaped(samples[k], |builds|, Span())
    }
  }

  function RoundsOf(ms: seq<Meta>): nat {
    if ms == [] then 0 else RoundsOf(ms[..|ms| - 1]) + ms[|ms| - 1].rounds
  }

  ghost predicate WellShaped(cols: seq<Column>, builds: nat, span: int) {
    |cols| == builds && forall b :: 0 <= b < builds ==> |cols[b]| == span
  }

  /** One round's figures of two builds. */
  type Pair = (Metric, Metric)

  datatype Error = NothingToPool | DifferentBuilds

  datatype Result<+T> = Ok(value: T) | Failed(error: Error)

  function Dropped(n: nat): (c: Column)
    ensures |c| == n
  {
    seq(n, _ => None)
  }

  // --- Pooling --------------------------------------------------------------------------------

  /** A row's columns in one measurement; one that lacks the row dropped every measured round. */
  function Columns(r: Raw, k: string): seq<Column> {
    if k in r.samples && r.samples[k] != [] then r.samples[k] else seq(|r.builds|, _ => Dropped(r.rounds))
  }

  /** Columns joined, one dropped round between two of them. */
  function Join(cols: seq<Column>): Column {
    if cols == [] then []
    else Join(cols[..|cols| - 1]) + (if |cols| > 1 then [None] else []) + cols[|cols| - 1]
  }

  lemma JoinAppend(cs: seq<Column>, c: Column)
    ensures Join(cs + [c]) == Join(cs) + (if cs == [] then [] else [None]) + c
  {
    assert (cs + [c])[..|cs|] == cs;
  }

  lemma ColumnsShape(r: Raw, k: string)
    requires r.Valid()
    ensures WellShaped(Columns(r, k), |r.builds|, if k in r.samples then r.Span() else r.rounds)
  {
    if k in r.samples { assert WellShaped(r.samples[k], |r.builds|, r.Span()); }
  }

  ghost predicate Poolable(raws: seq<Raw>) {
    raws != [] && forall i :: 0 <= i < |raws| ==> raws[i].Valid() && raws[i].builds == raws[0].builds
  }

  /** Build `b`'s column of row `k`; a well-shaped measurement has one. */
  function ColumnAt(r: Raw, k: string, b: nat): Column {
    if b < |Columns(r, k)| then Columns(r, k)[b] else []
  }

  /** Build `b`'s columns of row `k`, one per measurement. */
  function ColumnsOf(raws: seq<Raw>, k: string, b: nat): (cs: seq<Column>)
    ensures |cs| == |raws| && forall i :: 0 <= i < |raws| ==> cs[i] == ColumnAt(raws[i], k, b)
  {
    if raws == [] then []
    else ColumnsOf(raws[..|raws| - 1], k, b) + [ColumnAt(raws[|raws| - 1], k, b)]
  }

  function AllKeys(raws: seq<Raw>): set<string> {
    if raws == [] then {} else AllKeys(raws[..|raws| - 1]) + raws[|raws| - 1].samples.Keys
  }

  function AllWindows(raws: seq<Raw>): seq<Meta> {
    if raws == [] then [] else AllWindows(raws[..|raws| - 1]) + raws[|raws| - 1].windows
  }

  function AllRounds(raws: seq<Raw>): nat {
    if raws == [] then 0 else AllRounds(raws[..|raws| - 1]) + raws[|raws| - 1].rounds
  }

  /** What the pool of `raws` is: every row's column is its measurements' columns, joined. */
  ghost predicate PoolOf(raws: seq<Raw>, p: Raw)
    requires Poolable(raws)
  {
    && p.builds == raws[0].builds && p.rounds == AllRounds(raws) && p.windows == AllWindows(raws)
    && p.samples.Keys == AllKeys(raws)
    && forall k :: k in p.samples ==> JoinedRow(raws, k, p.samples[k])
  }

  ghost predicate JoinedRow(raws: seq<Raw>, k: string, row: seq<Column>)
    requires raws != []
  {
    |row| == |raws[0].builds| && forall b :: 0 <= b < |row| ==> row[b] == Join(ColumnsOf(raws, k, b))
  }

  /** Append one measurement's columns, build by build, after a dropped round when it is not the first. */
  method AppendColumns(cols: seq<Column>, perBuild: seq<Column>, first: bool) returns (cols': seq<Column>)
    requires |perBuild| == |cols|
    ensures |cols'| == |cols|
    ensures forall b :: 0 <= b < |cols| ==> cols'[b] == cols[b] + (if first then [] else [None]) + perBuild[b]
  {
    cols' := cols;
    for b := 0 to |cols|
      invariant |cols'| == |cols|
      invariant forall c :: 0 <= c < b ==> cols'[c] == cols[c] + (if first then [] else [None]) + perBuild[c]
      invariant forall c :: b <= c < |cols| ==> cols'[c] == cols[c]
    {
      cols' := cols'[b := cols'[b] + (if first then [] else [None]) + perBuild[b]];
    }
  }

  /** One more measurement extends a joined column. */
  lemma JoinNext(raws: seq<Raw>, k: string, b: nat, w: nat)
    requires w < |raws|
    ensures Join(ColumnsOf(raws[..w + 1], k, b))
         == Join(ColumnsOf(raws[..w], k, b)) + (if w == 0 then [] else [None]) + ColumnAt(raws[w], k, b)
  {
    assert raws[..w + 1][..w] == raws[..w];
    JoinAppend(ColumnsOf(raws[..w], k, b), ColumnAt(raws[w], k, b));
  }

  method PoolRow(raws: seq<Raw>, k: string) returns (cols: seq<Column>)
    requires Poolable(raws)
    ensures JoinedRow(raws, k, cols)
  {
    var n := |raws[0].builds|;
    cols := seq(n, _ => []);
    for w := 0 to |raws|
      invariant |cols| == n
      invariant forall b :: 0 <= b < n ==> cols[b] == Join(ColumnsOf(raws[..w], k, b))
    {
      ColumnsShape(raws[w], k);
      ghost var before := cols;
      cols := AppendColumns(cols, Columns(raws[w], k), w == 0);
      forall b | 0 <= b < n ensures cols[b] == Join(ColumnsOf(raws[..w + 1], k, b)) {
        JoinNext(raws, k, b, w);
        assert before[b] == Join(ColumnsOf(raws[..w], k, b));
      }
    }
    assert raws[..|raws|] == raws;
  }

  /** Join measurements of the same builds into one. */
  method Pool(raws: seq<Raw>) returns (r: Result<Raw>)
    requires forall i :: 0 <= i < |raws| ==> raws[i].Valid()
    ensures r.Ok? <==> Poolable(raws)
    ensures r.Ok? ==> PoolOf(raws, r.value)
    ensures r == Failed(NothingToPool) <==> raws == []
  {
    if raws == [] { return Failed(NothingToPool); }
    for i := 1 to |raws|
      invariant forall j :: 0 <= j < i ==> raws[j].builds == raws[0].builds
    {
      if raws[i].builds != raws[0].builds { return Failed(DifferentBuilds); }
    }
    var todo, samples := AllKeys(raws), map[];
    while todo != {}
      invariant samples.Keys + todo == AllKeys(raws) && samples.Keys !! todo
      invariant forall k :: k in samples ==> JoinedRow(raws, k, samples[k])
      decreases todo
    {
      var k :| k in todo;
      var row := PoolRow(raws, k);
      samples, todo := samples[k := row], todo - {k};
    }
    r := Ok(Raw(raws[0].builds, AllRounds(raws), samples, AllWindows(raws)));
  }

  // --- Taking a pool apart ----------------------------------------------------------------------

  /** Rounds `start` up to `start + n` of a column, as far as it goes. */
  function Slice(c: Column, start: nat, n: nat): Column {
    if start >= |c| then [] else if start + n > |c| then c[start..] else c[start..start + n]
  }

  function SliceAll(cols: seq<Column>, start: nat, n: nat): seq<Column> {
    seq(|cols|, b requires 0 <= b < |cols| => Slice(cols[b], start, n))
  }

  /** Where window `w` starts: each earlier window took its rounds and one dropped round. */
  function StartOf(ms: seq<Meta>, w: nat): nat
    requires w <= |ms|
  {
    if w == 0 then 0 else StartOf(ms, w - 1) + ms[w - 1].rounds + 1
  }

  /** The measurement of window `w` alone. */
  function WindowOf(p: Raw, w: nat): Raw
    requires w < |p.windows|
  {
    Raw(p.builds, p.windows[w].rounds,
        map k | k in p.samples :: SliceAll(p.samples[k], StartOf(p.windows, w), p.windows[w].rounds),
        [p.windows[w]])
  }

  /** The measuring windows of a pooled measurement; a single window comes back as itself. */
  method SplitWindows(p: Raw) returns (out: seq<Raw>)
    ensures |p.windows| < 2 ==> out == [p]
    ensures |p.windows| >= 2 ==> |out| == |p.windows| && forall w :: 0 <= w < |out| ==> out[w] == WindowOf(p, w)
  {
    if |p.windows| < 2 { return [p]; }
    out := [];
    var start := 0;
    for w := 0 to |p.windows|
      invariant |out| == w && start == StartOf(p.windows, w)
      invariant forall v :: 0 <= v < w ==> out[v] == WindowOf(p, v)
    {
      var n := p.windows[w].rounds;
      var samples := map k | k in p.samples :: SliceAll(p.samples[k], start, n);
      out := out + [Raw(p.builds, n, samples, [p.windows[w]])];
      start := start + n + 1;
    }
  }

  /** The length of joined columns. */
  lemma {:induction false} JoinLength(cols: seq<Column>, ms: seq<Meta>)
    requires |cols| == |ms| && cols != [] && forall i :: 0 <= i < |ms| ==> |cols[i]| == ms[i].rounds
    ensures |Join(cols)| == StartOf(ms, |ms|) - 1
    decreases |cols|
  {
    var n := |cols| - 1;
    if n > 0 {
      JoinLength(cols[..n], ms[..n]);
      StartPrefix(ms, n, n);
    }
  }

  lemma {:induction false} StartPrefix(ms: seq<Meta>, n: nat, w: nat)
    requires w <= n <= |ms|
    ensures StartOf(ms[..n], w) == StartOf(ms, w)
  {
    if w > 0 { StartPrefix(ms, n, w - 1); }
  }

  /** Where column `i` of a join starts. */
  function JoinStart(cs: seq<Column>, i: nat): nat
    requires i < |cs|
  {
    if i == 0 then 0 else |Join(cs[..i])| + 1
  }

  /** Where column `i` lies in a join. */
  lemma {:induction false} ColumnInJoin(cs: seq<Column>, i: nat) returns (pre: Column, post: Column)
    requires i < |cs|
    ensures Join(cs) == pre + cs[i] + post && |pre| == JoinStart(cs, i)
    decreases |cs|
  {
    var n := |cs| - 1;
    if i < n {
      pre, post := ColumnInJoin(cs[..n], i);
      assert cs[..n][..i] == cs[..i];
      post := post + ([None] + cs[n]);
    } else {
      pre, post := if n > 0 then Join(cs[..n]) + [None] else [], [];
      assert n == 0 ==> cs[..n] == [];
    }
  }

  lemma SliceInside(pre: Column, c: Column, post: Column, s: nat, n: nat)
    requires s + n <= |c|
    ensures Slice(pre + c + post, |pre| + s, n) == Slice(c, s, n) && |Slice(c, s, n)| == n
  {
    if s < |c| { assert (pre + c + post)[|pre| + s..|pre| + s + n] == c[s..s + n]; }
  }

  lemma JoinSlice(cs: seq<Column>, i: nat, s: nat, n: nat, start: nat)
    requires i < |cs| && s + n <= |cs[i]| && start == JoinStart(cs, i) + s
    ensures Slice(Join(cs), start, n) == Slice(cs[i], s, n)
  {
    var pre, post := ColumnInJoin(cs, i);
    SliceInside(pre, cs[i], post, s, n);
  }

  /** Slicing a join of one column a window at a window's start gives its column back. */
  lemma WindowSlice(cols: seq<Column>, ms: seq<Meta>, w: nat)
    requires |cols| == |ms| && w < |ms| && forall i :: 0 <= i < |ms| ==> |cols[i]| == ms[i].rounds
    ensures Slice(Join(cols), StartOf(ms, w), ms[w].rounds) == cols[w]
  {
    if w > 0 {
      JoinLength(cols[..w], ms[..w]);
      StartPrefix(ms, w, w);
    }
    JoinSlice(cols, w, 0, ms[w].rounds, StartOf(ms, w));
  }

  // --- The round trip ---------------------------------------------------------------------------

  lemma {:induction false} SingleWindows(raws: seq<Raw>)
    requires forall i :: 0 <= i < |raws| ==> |raws[i].windows| == 1
    ensures |AllWindows(raws)| == |raws| && forall i :: 0 <= i < |raws| ==> AllWindows(raws)[i] == raws[i].windows[0]
  {
    if raws != [] { SingleWindows(raws[..|raws| - 1]); }
  }

  /**
   The round trip: taking the pool of any single-window measurements of the same builds apart gives
   back each window's columns, a row that a window lacks as all dropped rounds.
   */
  lemma SplitOfPool(raws: seq<Raw>, p: Raw, w: nat, k: string)
    requires Poolable(raws) && PoolOf(raws, p) && w < |raws| && k in p.samples
    requires forall i :: 0 <= i < |raws| ==> |raws[i].windows| == 1
    ensures |p.windows| == |raws| && p.windows[w] == raws[w].windows[0]
    ensures WindowOf(p, w).builds == raws[w].builds && WindowOf(p, w).rounds == raws[w].rounds
    ensures WindowOf(p, w).samples[k] == Columns(raws[w], k)
  {
    SingleWindows(raws);
    forall i | 0 <= i < |raws| ensures p.windows[i].rounds == raws[i].rounds && raws[i].Span() == raws[i].rounds {
      OneWindowRounds(raws[i]);
    }
    assert JoinedRow(raws, k, p.samples[k]);
    ColumnsShape(raws[w], k);
    forall b | 0 <= b < |p.builds|
      ensures Slice(p.samples[k][b], StartOf(p.windows, w), p.windows[w].rounds) == Columns(raws[w], k)[b]
    {
      var cs := ColumnsOf(raws, k, b);
      forall i | 0 <= i < |raws| ensures |cs[i]| == p.windows[i].rounds {
        ColumnsShape(raws[i], k);
      }
      WindowSlice(cs, p.windows, w);
    }
  }

  /** The pool of one measurement, which comes back as itself, has its columns. */
  lemma PoolOfOne(r: Raw, p: Raw, k: string, b: nat)
    requires Poolable([r]) && PoolOf([r], p) && k in p.samples && b < |p.samples[k]|
    ensures p.samples[k][b] == ColumnAt(r, k, b)
  {
    assert JoinedRow([r], k, p.samples[k]);
    ColumnsOfOne(r, k, b);
    JoinOne(ColumnAt(r, k, b));
  }

  lemma ColumnsOfOne(r: Raw, k: string, b: nat)
    ensures ColumnsOf([r], k, b) == [ColumnAt(r, k, b)]
  {
  }

  lemma OneWindowRounds(r: Raw)
    requires r.Valid() && |r.windows| == 1
    ensures r.rounds == r.windows[0].rounds
  {
    assert r.windows[..0] == [];
    assert RoundsOf(r.windows) == RoundsOf(r.windows[..0]) + r.windows[0].rounds;
  }

  /** What window `w` of a measurement holds of row `k`: its slice, or dropped rounds when the row is missing. */
  function WindowRow(r: Raw, k: string, w: nat): seq<Column>
    requires w < |r.windows|
  {
    if k in r.samples then SliceAll(r.samples[k], StartOf(r.windows, w), r.windows[w].rounds)
    else seq(|r.builds|, _ => Dropped(r.windows[w].rounds))
  }

  /** The number of window `w` of measurement `i` in the pool. */
  function WindowIndex(raws: seq<Raw>, i: nat, w: nat): nat
    requires i < |raws|
  {
    |AllWindows(raws[..i])| + w
  }

  lemma {:induction false} WindowsAt(raws: seq<Raw>, i: nat)
    requires i < |raws|
    ensures var n, ms := |AllWindows(raws[..i])|, AllWindows(raws);
            && n + |raws[i].windows| <= |ms|
            && ms[..n] == AllWindows(raws[..i]) && ms[n..n + |raws[i].windows|] == raws[i].windows
    decreases |raws|
  {
    var m := |raws| - 1;
    if i < m {
      WindowsAt(raws[..m], i);
      assert raws[..m][..i] == raws[..i];
      var n, front := |AllWindows(raws[..i])|, AllWindows(raws[..m]);
      assert AllWindows(raws)[..|front|] == front;
      assert AllWindows(raws)[..n] == front[..n];
      assert AllWindows(raws)[n..n + |raws[i].windows|] == front[n..n + |raws[i].windows|];
    }
  }

  /** The pool's slice at every window of every measurement is that window's own row. */
  ghost predicate SlicesRight(raws: seq<Raw>, p: Raw, k: string)
    requires k in p.samples && p.windows == AllWindows(raws)
  {
    forall i, w | 0 <= i < |raws| && 0 <= w < |raws[i].windows| :: SliceRight(raws, p, k, i, w)
  }

  ghost predicate SliceRight(raws: seq<Raw>, p: Raw, k: string, i: nat, w: nat)
    requires k in p.samples && p.windows == AllWindows(raws) && i < |raws| && w < |raws[i].windows|
  {
    var g := WindowIndex(raws, i, w);
    && g < |p.windows|
    && SliceAll(p.samples[k], StartOf(p.windows, g), p.windows[g].rounds) == WindowRow(raws[i], k, w)
  }

  /** The pool's rounds, dropped ones included, before measurement `i`. */
  function Before(raws: seq<Raw>, i: nat): nat
    requires i <= |raws|
  {
    AllRounds(raws[..i]) + |AllWindows(raws[..i])|
  }

  /** Every window measured something. */
  ghost predicate Measured(raws: seq<Raw>) {
    forall i, w | 0 <= i < |raws| && 0 <= w < |raws[i].windows| :: raws[i].windows[w].rounds > 0
  }

  /** Every measurement that lacks the row is a single window. */
  ghost predicate LackIsSingle(raws: seq<Raw>, k: string) {
    forall i :: 0 <= i < |raws| ==> k in raws[i].samples || |raws[i].windows| == 1
  }

  // Where the windows start, in the pool and in the measurement.

  lemma {:induction false} StartAtEnd(ms: seq<Meta>)
    ensures StartOf(ms, |ms|) == RoundsOf(ms) + |ms|
  {
    if ms != [] {
      var n := |ms| - 1;
      StartAtEnd(ms[..n]);
      StartPrefix(ms, n, n);
    }
  }

  lemma {:induction false} StartWithin(ms: seq<Meta>, n: nat, part: seq<Meta>, w: nat)
    requires n + |part| <= |ms| && ms[n..n + |part|] == part && w <= |part|
    ensures StartOf(ms, n + w) == StartOf(ms, n) + StartOf(part, w)
  {
    if w > 0 {
      StartWithin(ms, n, part, w - 1);
      assert ms[n + w - 1] == ms[n..n + |part|][w - 1];
    }
  }

  lemma {:induction false} AllRoundsOf(raws: seq<Raw>)
    requires forall i :: 0 <= i < |raws| ==> raws[i].Valid()
    ensures AllRounds(raws) == RoundsOf(AllWindows(raws))
  {
    if raws != [] {
      var n := |raws| - 1;
      AllRoundsOf(raws[..n]);
      assert raws[n].Valid();
      RoundsConcat(AllWindows(raws[..n]), raws[n].windows);
    }
  }

  lemma {:induction false} RoundsConcat(a: seq<Meta>, b: seq<Meta>)
    ensures RoundsOf(a + b) == RoundsOf(a) + RoundsOf(b)
  {
    if b == [] {
      assert a + b == a;
    } else {
      var n := |b| - 1;
      RoundsConcat(a, b[..n]);
      assert (a + b)[..|a| + n] == a + b[..n];
    }
  }

  /** Where measurement `i` starts in the pool. */
  lemma PoolStartOf(raws: seq<Raw>, ms: seq<Meta>, i: nat)
    requires i < |raws| && ms == AllWindows(raws) && forall j :: 0 <= j < |raws| ==> raws[j].Valid()
    ensures var n := |AllWindows(raws[..i])|; n <= |ms| && StartOf(ms, n) == Before(raws, i)
  {
    var front := AllWindows(raws[..i]);
    WindowsAt(raws, i);
    StartPrefix(ms, |front|, |front|);
    StartAtEnd(front);
    AllRoundsOf(raws[..i]);
  }

  /** Where its windows start. */
  lemma PoolStart(raws: seq<Raw>, ms: seq<Meta>, i: nat, w: nat)
    requires i < |raws| && w <= |raws[i].windows| && ms == AllWindows(raws)
    requires forall j :: 0 <= j < |raws| ==> raws[j].Valid()
    ensures var g := WindowIndex(raws, i, w);
            g <= |ms| && StartOf(ms, g) == Before(raws, i) + StartOf(raws[i].windows, w)
  {
    WindowsAt(raws, i);
    PoolStartOf(raws, ms, i);
    StartSum(ms, |AllWindows(raws[..i])|, raws[i].windows, w, Before(raws, i), WindowIndex(raws, i, w));
  }

  lemma StartSum(ms: seq<Meta>, n: nat, part: seq<Meta>, w: nat, base: nat, g: nat)
    requires n + |part| <= |ms| && ms[n..n + |part|] == part && w <= |part| && StartOf(ms, n) == base && g == n + w
    ensures StartOf(ms, g) == base + StartOf(part, w)
  {
    StartWithin(ms, n, part, w);
  }

  /** In an aligned pool measurement `i`'s column lies where its windows start. */
  lemma AlignedColumn(raws: seq<Raw>, k: string, b: nat, i: nat)
    requires i < |raws| && forall j :: 0 <= j < |raws| ==> raws[j].Valid() && b < |raws[j].builds|
    requires LackIsSingle(raws, k)
    ensures Before(raws, i) == JoinStart(ColumnsOf(raws, k, b), i)
  {
    var front := raws[..i];
    assert ColumnsOf(raws, k, b)[..i] == ColumnsOf(front, k, b);
    if i > 0 {
      JoinedLength(front, k, b);
      MissingIff(front, k);
    }
  }

  /** A window lies within its measurement's column. */
  lemma WindowInSpan(r: Raw, w: nat)
    requires r.Valid() && w < |r.windows|
    ensures StartOf(r.windows, w) + r.windows[w].rounds <= r.Span()
  {
    var ms := r.windows;
    StartAtEnd(ms);
    StartGrows(ms, w + 1, |ms|);
    assert StartOf(ms, w + 1) == StartOf(ms, w) + ms[w].rounds + 1;
  }

  lemma {:induction false} StartGrows(ms: seq<Meta>, v: nat, w: nat)
    requires v <= w <= |ms|
    ensures StartOf(ms, v) <= StartOf(ms, w)
  {
    if v < w { StartGrows(ms, v, w - 1); }
  }

  /** A window's own row always has the window's rounds. */
  lemma WindowRowLength(r: Raw, k: string, w: nat, b: nat)
    requires r.Valid() && w < |r.windows| && b < |r.builds|
    ensures |WindowRow(r, k, w)| == |r.builds| && |WindowRow(r, k, w)[b]| == r.windows[w].rounds
  {
    if k in r.samples {
      assert WellShaped(r.samples[k], |r.builds|, r.Span());
      WindowInSpan(r, w);
      SliceInside([], r.samples[k][b], [], StartOf(r.windows, w), r.windows[w].rounds);
    }
  }

  /** A window's own row is the slice of the column that pooling takes, unless that lacks dropped rounds. */
  lemma RowSlice(r: Raw, k: string, w: nat, b: nat)
    requires r.Valid() && w < |r.windows| && b < |r.builds| && (k in r.samples || |r.windows| == 1)
    ensures var s, n, c := StartOf(r.windows, w), r.windows[w].rounds, ColumnAt(r, k, b);
            s + n <= |c| && b < |WindowRow(r, k, w)| && Slice(c, s, n) == WindowRow(r, k, w)[b]
  {
    WindowRowLength(r, k, w, b);
    WindowInSpan(r, w);
    ColumnsShape(r, k);
    if k !in r.samples { OneWindowRounds(r); }
  }

  /** The pool's window `g` is window `w` of measurement `i`, and starts where it should. */
  ghost predicate Placed(raws: seq<Raw>, ms: seq<Meta>, g: nat, i: nat, w: nat)
    requires i < |raws| && w < |raws[i].windows|
  {
    g < |ms| && ms[g] == raws[i].windows[w] && StartOf(ms, g) == Before(raws, i) + StartOf(raws[i].windows, w)
  }

  lemma PoolPlaces(raws: seq<Raw>, i: nat, w: nat)
    requires i < |raws| && w < |raws[i].windows| && forall j :: 0 <= j < |raws| ==> raws[j].Valid()
    ensures Placed(raws, AllWindows(raws), WindowIndex(raws, i, w), i, w)
  {
    PoolWindow(raws, i, w);
    PoolStart(raws, AllWindows(raws), i, w);
  }

  /** Window `w` of measurement `i` in the pool. */
  lemma PoolWindow(raws: seq<Raw>, i: nat, w: nat)
    requires i < |raws| && w < |raws[i].windows|
    ensures var g, ms := WindowIndex(raws, i, w), AllWindows(raws); g < |ms| && ms[g] == raws[i].windows[w]
  {
    WindowsAt(raws, i);
    var n := |AllWindows(raws[..i])|;
    assert AllWindows(raws)[n..n + |raws[i].windows|][w] == raws[i].windows[w];
  }

  /** In an aligned pool the slice at a window is that window's own row, build by build. */
  lemma AlignedSlice(raws: seq<Raw>, k: string, i: nat, w: nat, b: nat, start: nat, n: nat)
    requires forall j :: 0 <= j < |raws| ==> raws[j].Valid() && b < |raws[j].builds|
    requires LackIsSingle(raws, k) && i < |raws| && w < |raws[i].windows|
    requires start == Before(raws, i) + StartOf(raws[i].windows, w) && n == raws[i].windows[w].rounds
    ensures b < |WindowRow(raws[i], k, w)|
    ensures Slice(Join(ColumnsOf(raws, k, b)), start, n) == WindowRow(raws[i], k, w)[b]
  {
    RowSlice(raws[i], k, w, b);
    AlignedColumn(raws, k, b, i);
    JoinSlice(ColumnsOf(raws, k, b), i, StartOf(raws[i].windows, w), n, start);
  }

  /**
   Exactly when a pool of pools can be taken apart: a measurement that is itself a pool and lacks a
   row contributes its rounds without the dropped ones between them. Every window's slice of the row
   is right exactly when every measurement that lacks the row is a single window.
   */
  lemma PoolAlignedIff(raws: seq<Raw>, p: Raw, k: string)
    requires Poolable(raws) && PoolOf(raws, p) && k in p.samples && p.builds != [] && Measured(raws)
    ensures SlicesRight(raws, p, k) <==> LackIsSingle(raws, k)
  {
    assert JoinedRow(raws, k, p.samples[k]);
    if LackIsSingle(raws, k) {
      forall i, w | 0 <= i < |raws| && 0 <= w < |raws[i].windows| ensures SliceRight(raws, p, k, i, w) {
        AlignedSlices(raws, p, k, i, w);
      }
    } else {
      LastSliceShort(raws, p, k);
    }
  }

  lemma AlignedSlices(raws: seq<Raw>, p: Raw, k: string, i: nat, w: nat)
    requires Poolable(raws) && PoolOf(raws, p) && k in p.samples && LackIsSingle(raws, k) && p.builds != []
    requires i < |raws| && w < |raws[i].windows|
    ensures SliceRight(raws, p, k, i, w)
  {
    var g := WindowIndex(raws, i, w);
    assert JoinedRow(raws, k, p.samples[k]);
    WindowRowLength(raws[i], k, w, 0);
    PoolPlaces(raws, i, w);
    var start, n := StartOf(p.windows, g), p.windows[g].rounds;
    forall b | 0 <= b < |p.builds| ensures Slice(p.samples[k][b], start, n) == WindowRow(raws[i], k, w)[b] {
      AlignedSlice(raws, k, i, w, b, start, n);
    }
    SliceAllIs(p.samples[k], start, n, WindowRow(raws[i], k, w));
  }

  lemma SliceAllIs(cols: seq<Column>, start: nat, n: nat, out: seq<Column>)
    requires |cols| == |out| && forall b :: 0 <= b < |cols| ==> Slice(cols[b], start, n) == out[b]
    ensures SliceAll(cols, start, n) == out
  {
  }

  /** The column of a row that is not aligned ends before the last measurement's span does. */
  lemma ColumnTooShort(raws: seq<Raw>, k: string)
    requires raws != [] && forall j :: 0 <= j < |raws| ==> raws[j].Valid() && 0 < |raws[j].builds|
    requires !LackIsSingle(raws, k)
    ensures |Join(ColumnsOf(raws, k, 0))| < Before(raws, |raws| - 1) + raws[|raws| - 1].Span()
  {
    MissingIff(raws, k);
    JoinedLength(raws, k, 0);
  }

  lemma LastWindowEnds(r: Raw)
    requires r.Valid()
    ensures var w := |r.windows| - 1; StartOf(r.windows, w) + r.windows[w].rounds == r.Span()
  {
    StartAtEnd(r.windows);
  }

  lemma SliceAllShort(cols: seq<Column>, start: nat, n: nat, out: seq<Column>)
    requires cols != [] && out != [] && |cols[0]| < start + n && 0 < n == |out[0]|
    ensures SliceAll(cols, start, n) != out
  {
    assert |SliceAll(cols, start, n)[0]| < n;
  }

  /** A pool that is not aligned is too short for its last window. */
  lemma LastSliceShort(raws: seq<Raw>, p: Raw, k: string)
    requires Poolable(raws) && PoolOf(raws, p) && k in p.samples && p.builds != [] && Measured(raws)
    requires !LackIsSingle(raws, k)
    ensures !SlicesRight(raws, p, k)
  {
    var i := |raws| - 1;
    var w := |raws[i].windows| - 1;
    var g := WindowIndex(raws, i, w);
    assert JoinedRow(raws, k, p.samples[k]);
    PoolPlaces(raws, i, w);
    ColumnTooShort(raws, k);
    LastWindowEnds(raws[i]);
    WindowRowLength(raws[i], k, w, 0);
    SliceAllShort(p.samples[k], StartOf(p.windows, g), p.windows[g].rounds, WindowRow(raws[i], k, w));
    assert !SliceRight(raws, p, k, i, w);
  }

  /** A pool of two windows without the row, and a window of two rounds with it. */
  function Lacking(m: Meta): Raw {
    Raw(["a"], 2, map[], [m.(rounds := 1), m.(rounds := 1)])
  }

  function Holding(m: Meta, x: Metric, y: Metric): Raw {
    Raw(["a"], 2, map["row" := [[Some(x), Some(y)]]], [m.(rounds := 2)])
  }

  lemma ShiftedWindows(m: Meta, x: Metric, y: Metric)
    ensures var raws := [Lacking(m), Holding(m, x, y)];
            var ms := AllWindows(raws);
            |ms| == 3 && ms[2].rounds == 2 && StartOf(ms, 2) == 4 && "row" in AllKeys(raws)
  {
    var raws := [Lacking(m), Holding(m, x, y)];
    assert raws[..1] == [Lacking(m)] && [Lacking(m)][..0] == [];
    assert AllWindows([Lacking(m)]) == Lacking(m).windows;
    var ms := AllWindows(raws);
    assert ms == Lacking(m).windows + Holding(m, x, y).windows;
    assert StartOf(ms, 1) == 2;
  }

  lemma ShiftedColumn(m: Meta, x: Metric, y: Metric)
    ensures Join(ColumnsOf([Lacking(m), Holding(m, x, y)], "row", 0)) == [None, None, None, Some(x), Some(y)]
  {
    var cs := ColumnsOf([Lacking(m), Holding(m, x, y)], "row", 0);
    assert cs == [Dropped(2)] + [[Some(x), Some(y)]];
    JoinOne(Dropped(2));
    JoinAppend([Dropped(2)], [Some(x), Some(y)]);
  }

  /** Taken apart, their pool's third window has lost its first round: it ends with the second. */
  lemma PoolOfPoolsShifts(m: Meta, x: Metric, y: Metric, p: Raw)
    requires Poolable([Lacking(m), Holding(m, x, y)]) && PoolOf([Lacking(m), Holding(m, x, y)], p)
    ensures |p.windows| == 3 && "row" in p.samples && WindowOf(p, 2).samples["row"] == [[Some(y)]]
  {
    ShiftedWindows(m, x, y);
    ShiftedColumn(m, x, y);
    assert JoinedRow([Lacking(m), Holding(m, x, y)], "row", p.samples["row"]);
    assert p.samples["row"] == [[None, None, None, Some(x), Some(y)]];
    assert Slice([None, None, None, Some(x), Some(y)], 4, 2) == [Some(y)];
  }

  /** The dropped rounds a row loses to pools that lack it. */
  ghost function Missing(raws: seq<Raw>, k: string): int {
    if raws == [] then 0
    else
      var r := raws[|raws| - 1];
      Missing(raws[..|raws| - 1], k) + if k in r.samples then 0 else |r.windows| - 1
  }

  lemma {:induction false} MissingIff(raws: seq<Raw>, k: string)
    requires forall i :: 0 <= i < |raws| ==> raws[i].Valid()
    ensures Missing(raws, k) >= 0
    ensures Missing(raws, k) == 0 <==> forall i :: 0 <= i < |raws| ==> k in raws[i].samples || |raws[i].windows| == 1
  {
    if raws != [] {
      var n := |raws| - 1;
      MissingIff(raws[..n], k);
      assert raws[n].Valid();
      assert forall i :: 0 <= i < n ==> raws[..n][i] == raws[i];
    }
  }

  lemma {:induction false} JoinedLength(raws: seq<Raw>, k: string, b: nat)
    requires raws != [] && forall i :: 0 <= i < |raws| ==> raws[i].Valid() && b < |raws[i].builds|
    ensures |Join(ColumnsOf(raws, k, b))| == AllRounds(raws) + |AllWindows(raws)| - 1 - Missing(raws, k)
  {
    var n := |raws| - 1;
    var cs := ColumnsOf(raws, k, b);
    ColumnsShape(raws[n], k);
    assert cs[..n] == ColumnsOf(raws[..n], k, b);
    if n > 0 {
      JoinedLength(raws[..n], k, b);
    } else {
      assert raws[..0] == [] && cs[..0] == [];
    }
  }

  // --- No gate window straddles two stops -------------------------------------------------------

  function Zip(xs: Column, ys: Column): (ps: seq<Option<Pair>>)
    ensures |ps| == if |xs| < |ys| then |xs| else |ys|
  {
    if xs == [] || ys == [] then []
    else [Paired(xs[0], ys[0])] + Zip(xs[1..], ys[1..])
  }

  /** Both builds' figures of a round; a round that either dropped is dropped. */
  function Paired(x: Option<Metric>, y: Option<Metric>): Option<Pair> {
    if x.Some? && y.Some? then Some((x.value, y.value)) else None
  }

  /** One gate window: consecutive rounds in which both builds ran clean. */
  datatype Session = Session(rounds: seq<Option<Pair>>)

  predicate AllClean(ps: seq<Option<Pair>>) {
    forall i :: 0 <= i < |ps| ==> ps[i].Some?
  }

  /** The run that starts at `s`, if it is clean. */
  function RunAt(ps: seq<Option<Pair>>, width: nat, s: nat): seq<Session>
    requires s + width <= |ps|
  {
    if AllClean(ps[s..s + width]) then [Session(ps[s..s + width])] else []
  }

  /** The runs that start at `s` or later. */
  function RunsFrom(ps: seq<Option<Pair>>, width: nat, s: nat): seq<Session>
    decreases |ps| + 1 - s
  {
    if s + width > |ps| then [] else RunAt(ps, width, s) + RunsFrom(ps, width, s + 1)
  }

  /** Every run of `width` consecutive clean rounds, in order. */
  function Runs(ps: seq<Option<Pair>>, width: nat): seq<Session> {
    RunsFrom(ps, width, 0)
  }

  /** The runs of two builds' columns. */
  method Windows(xs: Column, ys: Column, width: nat) returns (out: seq<Session>)
    ensures out == Runs(Zip(xs, ys), width)
  {
    out := CleanRuns(Zip(xs, ys), width);
  }

  /** The runs by index, as the gate takes them. */
  method CleanRuns(ps: seq<Option<Pair>>, width: nat) returns (out: seq<Session>)
    ensures out == Runs(ps, width)
  {
    out := [];
    var s := 0;
    while s + width <= |ps|
      invariant out + RunsFrom(ps, width, s) == Runs(ps, width)
      decreases |ps| + 1 - s
    {
      Regroup(out, RunAt(ps, width, s), RunsFrom(ps, width, s + 1));
      if AllClean(ps[s..s + width]) { out := out + [Session(ps[s..s + width])]; }
      s := s + 1;
    }
  }

  lemma Regroup(x: seq<Session>, y: seq<Session>, z: seq<Session>)
    ensures x + (y + z) == x + y + z
  {
  }

  lemma ZipCons(xs: Column, ys: Column)
    requires xs != [] && ys != []
    ensures Zip(xs, ys) == [Paired(xs[0], ys[0])] + Zip(xs[1..], ys[1..])
  {
  }

  lemma RegroupPairs(p: Option<Pair>, a: seq<Option<Pair>>, b: seq<Option<Pair>>)
    ensures [p] + (a + b) == [p] + a + b
  {
  }

  lemma {:induction false} ZipConcat(xa: Column, ya: Column, xb: Column, yb: Column)
    requires |xa| == |ya|
    ensures Zip(xa + xb, ya + yb) == Zip(xa, ya) + Zip(xb, yb)
  {
    if xa == [] {
      assert xa + xb == xb && ya + yb == yb;
      assert [] + Zip(xb, yb) == Zip(xb, yb);
    } else {
      ZipConcat(xa[1..], ya[1..], xb, yb);
      assert (xa + xb)[1..] == xa[1..] + xb && (ya + yb)[1..] == ya[1..] + yb;
      ZipCons(xa + xb, ya + yb);
      ZipCons(xa, ya);
      RegroupPairs(Paired(xa[0], ya[0]), Zip(xa[1..], ya[1..]), Zip(xb, yb));
    }
  }

  /** A run that starts after the drop is one of what follows it. */
  lemma RunAfterDrop(ps: seq<Option<Pair>>, a: seq<Option<Pair>>, b: seq<Option<Pair>>, width: nat, s: nat, t: nat)
    requires ps == a + [None] + b && t == |a| + 1 + s && s + width <= |b|
    ensures RunAt(ps, width, t) == RunAt(b, width, s)
  {
    assert ps[t..t + width] == b[s..s + width];
  }

  lemma {:induction false} RunsAfterDrop(ps: seq<Option<Pair>>, a: seq<Option<Pair>>, b: seq<Option<Pair>>, width: nat, s: nat, t: nat)
    requires ps == a + [None] + b && t == |a| + 1 + s && s <= |b| + 1
    ensures RunsFrom(ps, width, t) == RunsFrom(b, width, s)
    decreases |b| + 1 - s
  {
    if s + width <= |b| {
      RunAfterDrop(ps, a, b, width, s, t);
      RunsAfterDrop(ps, a, b, width, s + 1, t + 1);
    }
  }

  /** A run that starts at or before the drop is one of what precedes it, or goes through the drop. */
  lemma RunBeforeDrop(a: seq<Option<Pair>>, b: seq<Option<Pair>>, width: nat, s: nat)
    requires s <= |a| && s + width <= |a| + 1 + |b|
    ensures RunAt(a + [None] + b, width, s) == if s + width <= |a| then RunAt(a, width, s) else []
  {
    var ps := a + [None] + b;
    if s + width <= |a| {
      assert ps[s..s + width] == a[s..s + width];
    } else {
      assert ps[s..s + width][|a| - s] == None;
    }
  }

  /** A dropped round cuts the runs: none goes through it, and none is lost. */
  lemma {:induction false} RunsAcrossDropFrom(a: seq<Option<Pair>>, b: seq<Option<Pair>>, width: nat, s: nat)
    requires s <= |a| + 1
    ensures RunsFrom(a + [None] + b, width, s) == RunsFrom(a, width, s) + RunsFrom(b, width, 0)
    decreases |a| + 1 - s
  {
    if s == |a| + 1 {
      RunsAfterDrop(a + [None] + b, a, b, width, 0, s);
    } else {
      RunsAcrossDropFrom(a, b, width, s + 1);
      if s + width <= |a| + 1 + |b| {
        RunBeforeDrop(a, b, width, s);
        Regroup(RunAt(a + [None] + b, width, s), RunsFrom(a, width, s + 1), RunsFrom(b, width, 0));
      }
    }
  }

  lemma RunsAcrossDrop(a: seq<Option<Pair>>, b: seq<Option<Pair>>, width: nat)
    ensures Runs(a + [None] + b, width) == Runs(a, width) + Runs(b, width)
  {
    RunsAcrossDropFrom(a, b, width, 0);
  }

  /** The runs of each measurement's own columns, in order. */
  function RunsOfEach(xs: seq<Column>, ys: seq<Column>, width: nat): seq<Session>
    requires |xs| == |ys|
  {
    if xs == [] then []
    else
      var n := |xs| - 1;
      RunsOfEach(xs[..n], ys[..n], width) + Runs(Zip(xs[n], ys[n]), width)
  }

  /** The gate windows of a pooled row are exactly those of its stops, for every window width. */
  lemma {:induction false} NoStraddle(xs: seq<Column>, ys: seq<Column>, width: nat)
    requires |xs| == |ys| && xs != [] && forall i :: 0 <= i < |xs| ==> |xs[i]| == |ys[i]|
    ensures |Join(xs)| == |Join(ys)|
    ensures Runs(Zip(Join(xs), Join(ys)), width) == RunsOfEach(xs, ys, width)
    decreases |xs|
  {
    var n := |xs| - 1;
    assert xs == xs[..n] + [xs[n]] && ys == ys[..n] + [ys[n]];
    if n == 0 {
      NoStraddleOne(xs[0], ys[0], width);
      assert xs == [xs[0]] && ys == [ys[0]];
    } else {
      NoStraddle(xs[..n], ys[..n], width);
      NoStraddleNext(xs[..n], ys[..n], xs[n], ys[n], width);
    }
  }

  /** One more stop. */
  lemma NoStraddleNext(xs: seq<Column>, ys: seq<Column>, x: Column, y: Column, width: nat)
    requires |xs| == |ys| && xs != [] && |Join(xs)| == |Join(ys)| && |x| == |y|
    requires Runs(Zip(Join(xs), Join(ys)), width) == RunsOfEach(xs, ys, width)
    ensures |Join(xs + [x])| == |Join(ys + [y])|
    ensures Runs(Zip(Join(xs + [x]), Join(ys + [y])), width) == RunsOfEach(xs + [x], ys + [y], width)
  {
    JoinAppend(xs, x);
    JoinAppend(ys, y);
    StopAppended(Join(xs), Join(ys), x, y, width);
    RunsOfEachAppend(xs, ys, x, y, width);
  }

  lemma RunsOfEachAppend(xs: seq<Column>, ys: seq<Column>, x: Column, y: Column, width: nat)
    requires |xs| == |ys|
    ensures RunsOfEach(xs + [x], ys + [y], width) == RunsOfEach(xs, ys, width) + Runs(Zip(x, y), width)
  {
    assert (xs + [x])[..|xs|] == xs && (ys + [y])[..|ys|] == ys;
  }

  lemma NoStraddleOne(x: Column, y: Column, width: nat)
    ensures Join([x]) == x && Join([y]) == y && RunsOfEach([x], [y], width) == Runs(Zip(x, y), width)
  {
    JoinOne(x);
    JoinOne(y);
    assert [x][..0] == [] && [y][..0] == [];
    assert RunsOfEach([x], [y], width) == RunsOfEach([x][..0], [y][..0], width) + Runs(Zip(x, y), width);
  }

  lemma JoinOne(c: Column)
    ensures Join([c]) == c
  {
    JoinAppend([], c);
    assert [] + [c] == [c];
  }

  /** One more stop, after a dropped round, adds its own runs and no other. */
  lemma StopAppended(a: Column, b: Column, x: Column, y: Column, width: nat)
    requires |a| == |b| && |x| == |y|
    ensures Runs(Zip(a + [None] + x, b + [None] + y), width) == Runs(Zip(a, b), width) + Runs(Zip(x, y), width)
  {
    ZipJoin(a, b, x, y);
    RunsAcrossDrop(Zip(a, b), Zip(x, y), width);
  }

  lemma ZipJoin(a: Column, b: Column, x: Column, y: Column)
    requires |a| == |b|
    ensures Zip(a + [None] + x, b + [None] + y) == Zip(a, b) + [None] + Zip(x, y)
  {
    assert a + [None] + x == a + ([None] + x) && b + [None] + y == b + ([None] + y);
    ZipConcat(a, b, [None] + x, [None] + y);
    ZipConcat([None], [None], x, y);
    assert Zip([None], [None]) == [None] + Zip([], []);
  }

  /** So a pooled measurement has the gate windows of its measurements, row by row and pair by pair. */
  lemma PooledWindows(raws: seq<Raw>, p: Raw, k: string, x: nat, y: nat, width: nat)
    requires Poolable(raws) && PoolOf(raws, p) && k in p.samples && x < |p.builds| && y < |p.builds|
    ensures JoinedRow(raws, k, p.samples[k])
    ensures Runs(Zip(p.samples[k][x], p.samples[k][y]), width)
         == RunsOfEach(ColumnsOf(raws, k, x), ColumnsOf(raws, k, y), width)
  {
    assert JoinedRow(raws, k, p.samples[k]);
    var xs, ys := ColumnsOf(raws, k, x), ColumnsOf(raws, k, y);
    forall i | 0 <= i < |raws| ensures |xs[i]| == |ys[i]| {
      ColumnsShape(raws[i], k);
    }
    NoStraddle(xs, ys, width);
  }
}
