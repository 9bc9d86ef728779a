/** The kernel's cpu-list spelling: `0-3,6`. Printing a set of CPU numbers and parsing it back. */
module CpuList {
  import opened NumberSet
  import opened Options

  // --- Runs -------------------------------------------------------------------------------------

  datatype Run = Run(lo: nat, hi: nat)

  /** Where the run of consecutive numbers that `c[i]` is in ends. */
  function RunEnd(c: seq<nat>, i: nat): (e: nat)
    requires i < |c|
    ensures i <= e < |c|
    decreases |c| - i
  {
    if i + 1 < |c| && c[i + 1] == c[i] + 1 then RunEnd(c, i + 1) else i
  }

  /** The runs of the numbers from index `i` on. */
  function RunsFrom(c: seq<nat>, i: nat): seq<Run>
    decreases |c| - i
  {
    if i >= |c| then [] else [Run(c[i], c[RunEnd(c, i)])] + RunsFrom(c, RunEnd(c, i) + 1)
  }

  /** `lo` up to `hi`, or nothing when `hi` is below it. */
  function Numbers(lo: nat, hi: nat): seq<nat>
    decreases hi + 1 - lo
  {
    if lo > hi then [] else [lo] + Numbers(lo + 1, hi)
  }

  /** The numbers of the runs, in order. */
  function Expand(rs: seq<Run>): seq<nat> {
    if rs == [] then [] else Numbers(rs[0].lo, rs[0].hi) + Expand(rs[1..])
  }

  lemma {:induction false} RunIsNumbers(c: seq<nat>, i: nat)
    requires i < |c|
    ensures c[i] <= c[RunEnd(c, i)] && Numbers(c[i], c[RunEnd(c, i)]) == c[i..RunEnd(c, i) + 1]
    decreases |c| - i
  {
    if i + 1 < |c| && c[i + 1] == c[i] + 1 {
      RunIsNumbers(c, i + 1);
      assert c[i..RunEnd(c, i) + 1] == [c[i]] + c[i + 1..RunEnd(c, i) + 1];
    } else {
      assert Numbers(c[i], c[i]) == [c[i]] + Numbers(c[i] + 1, c[i]);
    }
  }

  lemma ExpandCons(r: Run, rs: seq<Run>)
    ensures Expand([r] + rs) == Numbers(r.lo, r.hi) + Expand(rs)
  {
    assert ([r] + rs)[1..] == rs;
  }

  /** The runs hold exactly the numbers. */
  lemma {:induction false} ExpandRuns(c: seq<nat>, i: nat)
    requires i <= |c|
    ensures Expand(RunsFrom(c, i)) == c[i..]
    decreases |c| - i
  {
    if i < |c| {
      var e := RunEnd(c, i) + 1;
      RunIsNumbers(c, i);
      ExpandRuns(c, e);
      ExpandCons(Run(c[i], c[e - 1]), RunsFrom(c, e));
      assert c[i..] == c[i..e] + c[e..];
    }
  }

  /** Runs are non-empty, ascending and apart: no two touch, so none could be longer. */
  ghost predicate Maximal(rs: seq<Run>) {
    && (forall k :: 0 <= k < |rs| ==> rs[k].lo <= rs[k].hi)
    && (forall k :: 0 <= k < |rs| - 1 ==> rs[k].hi + 1 < rs[k + 1].lo)
  }

  lemma {:induction false} RunEndStops(c: seq<nat>, i: nat)
    requires i < |c|
    ensures var e := RunEnd(c, i); e + 1 < |c| ==> c[e + 1] != c[e] + 1
    decreases |c| - i
  {
    if i + 1 < |c| && c[i + 1] == c[i] + 1 { RunEndStops(c, i + 1); }
  }

  lemma {:induction false} RunsMaximal(c: seq<nat>, i: nat)
    requires Ascending(c) && i <= |c|
    ensures Maximal(RunsFrom(c, i))
    decreases |c| - i
  {
    if i < |c| {
      var e := RunEnd(c, i) + 1;
      RunIsNumbers(c, i);
      RunEndStops(c, i);
      RunsMaximal(c, e);
      var rs, rest := RunsFrom(c, i), RunsFrom(c, e);
      assert rs == [rs[0]] + rest;
      assert forall k :: 1 <= k < |rs| ==> rs[k] == rest[k - 1];
    }
  }

  // --- Printing ---------------------------------------------------------------------------------

  function Digit(d: nat): char
    requires d < 10
  {
    '0' + d as char
  }

  function Decimal(n: nat): (s: string)
    ensures s != []
  {
    if n < 10 then [Digit(n)] else Decimal(n / 10) + [Digit(n % 10)]
  }

  function Spell(r: Run): string {
    if r.lo == r.hi then Decimal(r.lo) else Decimal(r.lo) + "-" + Decimal(r.hi)
  }

  /** The parts with a comma between two of them. */
  function JoinComma(parts: seq<string>): string {
    if parts == [] then "" else if |parts| == 1 then parts[0] else parts[0] + "," + JoinComma(parts[1..])
  }

  function SpellAll(rs: seq<Run>): (parts: seq<string>)
    ensures |parts| == |rs|
  {
    if rs == [] then [] else [Spell(rs[0])] + SpellAll(rs[1..])
  }

  function Print(xs: seq<nat>): string {
    JoinComma(SpellAll(RunsFrom(SortedSet(xs), 0)))
  }

  lemma {:induction false} SpellAppend(rs: seq<Run>, r: Run)
    ensures SpellAll(rs + [r]) == SpellAll(rs) + [Spell(r)]
  {
    if rs == [] {
      assert rs + [r] == [r];
    } else {
      SpellAppend(rs[1..], r);
      assert (rs + [r])[1..] == rs[1..] + [r];
    }
  }

  /** `done` followed by the runs from index `i` on are `all` the runs. */
  ghost predicate RunsDone(all: seq<Run>, c: seq<nat>, done: seq<Run>, i: nat) {
    done + RunsFrom(c, i) == all
  }

  lemma Regroup(done: seq<Run>, r: Run, rest: seq<Run>)
    ensures done + ([r] + rest) == done + [r] + rest
  {
  }

  lemma NextRunDone(all: seq<Run>, c: seq<nat>, done: seq<Run>, first: nat, i: nat)
    requires first <= i < |c| && RunEnd(c, first) == i && RunsDone(all, c, done, first)
    ensures RunsDone(all, c, done + [Run(c[first], c[i])], i + 1)
  {
    Regroup(done, Run(c[first], c[i]), RunsFrom(c, i + 1));
  }

  lemma AllRunsDone(all: seq<Run>, c: seq<nat>, done: seq<Run>)
    requires RunsDone(all, c, done, |c|)
    ensures done == all
  {
    assert done + [] == done;
  }

  /** Spell the runs of an ascending sequence, collected in one pass. */
  method SpellRuns(c: seq<nat>) returns (parts: seq<string>)
    ensures parts == SpellAll(RunsFrom(c, 0))
  {
    parts := [];
    var start: Option<nat> := None;
    ghost var first, done, all: seq<Run> := 0, [], RunsFrom(c, 0);
    for i := 0 to |c|
      invariant first <= i && (start.None? ==> first == i)
      invariant start.Some? ==> first < i && start.value == c[first] && RunEnd(c, first) == RunEnd(c, i - 1) >= i
      invariant parts == SpellAll(done) && RunsDone(all, c, done, first)
    {
      var x := c[i];
      if start.None? { start := Some(x); }
      if i + 1 == |c| || c[i + 1] != x + 1 {
        NextRunDone(all, c, done, first, i);
        SpellAppend(done, Run(start.value, x));
        parts := parts + [Spell(Run(start.value, x))];
        done := done + [Run(start.value, x)];
        start, first := None, i + 1;
      }
    }
    AllRunsDone(all, c, done);
  }

  /** Print a collection of CPU numbers: sort, drop repeats, spell the runs, join with commas. */
  method PrintCpuList(cpus: seq<nat>) returns (s: string)
    ensures s == Print(cpus)
  {
    var parts := SpellRuns(SortedSet(cpus));
    s := JoinComma(parts);
  }

  // --- Parsing ----------------------------------------------------------------------------------

  predicate IsDigit(c: char) {
    '0' <= c <= '9'
  }

  predicate IsSpace(c: char) {
    c == ' ' || '\t' <= c <= '\r' || '\U{1C}' <= c <= '\U{1F}'
  }

  /** Without white space at either end. */
  function Strip(s: string): string
    decreases |s|
  {
    if s == [] then s
    else if IsSpace(s[0]) then Strip(s[1..])
    else if IsSpace(s[|s| - 1]) then Strip(s[..|s| - 1])
    else s
  }

  /** The parts between commas; a string without one is its own only part. */
  function Split(s: string): (parts: seq<string>)
    ensures parts != []
  {
    if s == [] then [""] else Prepend(s[0], Split(s[1..]))
  }

  /** The parts of a string with one more character in front. */
  function Prepend(c: char, rest: seq<string>): (parts: seq<string>)
    requires rest != []
    ensures parts != []
  {
    if c == ',' then [""] + rest else [[c] + rest[0]] + rest[1..]
  }

  /** Where the first dash is, or the length when there is none. */
  function Dash(s: string): (i: nat)
    ensures i <= |s|
  {
    if s == [] || s[0] == '-' then 0 else 1 + Dash(s[1..])
  }

  /** A decimal number: one digit or more. */
  function ParseNat(s: string): Option<nat> {
    if s == [] || !IsDigit(s[|s| - 1]) then None
    else
      var d := (s[|s| - 1] - '0') as nat;
      if |s| == 1 then Some(d)
      else
        match ParseNat(s[..|s| - 1])
        case None => None
        case Some(v) => Some(10 * v + d)
  }

  /** The numbers one part names. */
  function ParsePart(part: string): Option<seq<nat>> {
    ParseBare(Strip(part))
  }

  /** Nothing when blank, one number, or a range. */
  function ParseBare(p: string): Option<seq<nat>> {
    if p == [] then Some([])
    else
      var i := Dash(p);
      var lo, hi := Strip(p[..i]), if i < |p| then p[i + 1..] else "";
      match (ParseNat(lo), ParseNat(if hi == [] then lo else Strip(hi)))
      case (Some(a), Some(b)) => Some(Numbers(a, b))
      case _ => None
  }

  /** The numbers of the first `n` parts by a given reading of one; an error in any is an error of the whole. */
  function ParseAll(parse: string -> Option<seq<nat>>, parts: seq<string>, n: nat): Option<seq<nat>>
    requires n <= |parts|
  {
    if n == 0 then Some([]) else Both(ParseAll(parse, parts, n - 1), parse(parts[n - 1]))
  }

  function ParseParts(parts: seq<string>, n: nat): Option<seq<nat>>
    requires n <= |parts|
  {
    ParseAll(ParsePart, parts, n)
  }

  function Both(a: Option<seq<nat>>, b: Option<seq<nat>>): Option<seq<nat>> {
    if a.Some? && b.Some? then Some(a.value + b.value) else None
  }

  lemma {:induction false} PartFails(parse: string -> Option<seq<nat>>, parts: seq<string>, i: nat, n: nat)
    requires i < n <= |parts| && parse(parts[i]).None?
    ensures ParseAll(parse, parts, n).None?
  {
    if i < n - 1 { PartFails(parse, parts, i, n - 1); }
  }

  function Parse(spec: string): Option<seq<nat>> {
    var parts := Split(Strip(spec));
    match ParseParts(parts, |parts|)
    case None => None
    case Some(xs) => Some(SortedSet(xs))
  }

  /** Parse a cpu list, part by part. */
  method ParseCpuList(spec: string) returns (r: Option<seq<nat>>)
    ensures r == Parse(spec)
  {
    var parts := Split(Strip(spec));
    var out := ReadParts(ParsePart, parts);
    r := if out.None? then None else Some(SortedSet(out.value));
  }

  method ReadParts(parse: string -> Option<seq<nat>>, parts: seq<string>) returns (r: Option<seq<nat>>)
    ensures r == ParseAll(parse, parts, |parts|)
  {
    var out: seq<nat> := [];
    for i := 0 to |parts|
      invariant ParseAll(parse, parts, i) == Some(out)
    {
      var more := parse(parts[i]);
      if more.None? {
        PartFails(parse, parts, i, |parts|);
        return None;
      }
      out := out + more.value;
    }
    r := Some(out);
  }

  // --- Numbers and dashes -----------------------------------------------------------------------

  ghost predicate Digits(s: string) {
    s != [] && forall i :: 0 <= i < |s| ==> IsDigit(s[i])
  }

  lemma DigitBack(d: nat)
    requires d < 10
    ensures IsDigit(Digit(d)) && (Digit(d) - '0') as nat == d
  {
  }

  lemma {:induction false} DecimalDigits(n: nat)
    ensures Digits(Decimal(n))
  {
    if n < 10 { DigitBack(n); } else { DecimalDigits(n / 10); DigitBack(n % 10); }
  }

  lemma {:induction false} DecimalBack(n: nat)
    ensures ParseNat(Decimal(n)) == Some(n)
  {
    if n < 10 {
      DigitBack(n);
    } else {
      DecimalBack(n / 10);
      DigitBack(n % 10);
      var s := Decimal(n);
      assert s[..|s| - 1] == Decimal(n / 10);
    }
  }

  lemma {:induction false} DashAfterDigits(s: string, t: string)
    requires Digits(s) && (t == [] || t[0] == '-')
    ensures Dash(s + t) == |s|
  {
    assert s == [s[0]] + s[1..];
    assert (s + t)[1..] == s[1..] + t;
    if |s| == 1 { assert s[1..] + t == t; } else { DashAfterDigits(s[1..], t); }
  }

  // --- White space ------------------------------------------------------------------------------

  ghost predicate Spaces(s: string) {
    forall i :: 0 <= i < |s| ==> IsSpace(s[i])
  }

  /** A text that stripping leaves as it is. */
  ghost predicate Bare(s: string) {
    s == [] || (!IsSpace(s[0]) && !IsSpace(s[|s| - 1]))
  }

  lemma {:induction false} StripSnoc(s: string, c: char)
    requires IsSpace(c)
    ensures Strip(s + [c]) == Strip(s)
    decreases |s|
  {
    var t := s + [c];
    if s == [] {
      assert t == [c] && t[1..] == [];
    } else if IsSpace(s[0]) {
      StripSnoc(s[1..], c);
      assert t[1..] == s[1..] + [c];
    } else {
      assert t[..|t| - 1] == s;
    }
  }

  lemma {:induction false} StripBefore(pre: string, s: string)
    requires Spaces(pre)
    ensures Strip(pre + s) == Strip(s)
  {
    if pre == [] {
      assert pre + s == s;
    } else {
      StripBefore(pre[1..], s);
      assert (pre + s)[1..] == pre[1..] + s;
    }
  }

  lemma {:induction false} StripAfter(s: string, post: string)
    requires Spaces(post)
    ensures Strip(s + post) == Strip(s)
  {
    if post == [] {
      assert s + post == s;
    } else {
      var n := |post| - 1;
      StripAfter(s, post[..n]);
      StripSnoc(s + post[..n], post[n]);
      assert s + post == s + post[..n] + [post[n]];
    }
  }

  lemma StripPadding(pre: string, core: string, post: string)
    requires Spaces(pre) && Spaces(post) && Bare(core)
    ensures Strip(pre + core + post) == core
  {
    StripAfter(pre + core, post);
    StripBefore(pre, core);
  }

  // --- Commas -----------------------------------------------------------------------------------

  // Splitting at commas undoes joining.

  ghost predicate NoComma(s: string) {
    forall i :: 0 <= i < |s| ==> s[i] != ','
  }

  lemma {:induction false} SplitSingle(s: string)
    requires NoComma(s)
    ensures Split(s) == [s]
  {
    if s != [] {
      SplitSingle(s[1..]);
      assert s == [s[0]] + s[1..];
    }
  }

  lemma {:induction false} SplitFirst(s: string, t: string)
    requires NoComma(s)
    ensures Split(s + "," + t) == [s] + Split(t)
  {
    var u := s + "," + t;
    if s == [] {
      assert u[1..] == t;
    } else {
      SplitFirst(s[1..], t);
      assert u[1..] == s[1..] + "," + t;
      assert s == [s[0]] + s[1..];
    }
  }

  lemma {:induction false} SplitJoined(parts: seq<string>)
    requires parts != [] && forall i :: 0 <= i < |parts| ==> NoComma(parts[i])
    ensures Split(JoinComma(parts)) == parts
  {
    if |parts| == 1 {
      SplitSingle(parts[0]);
    } else {
      SplitJoined(parts[1..]);
      SplitFirst(parts[0], JoinComma(parts[1..]));
    }
  }

  /** The parts of a string with one more character, not a comma, at the end. */
  function Append(parts: seq<string>, c: char): (more: seq<string>)
    requires parts != []
    ensures |more| == |parts|
  {
    parts[..|parts| - 1] + [parts[|parts| - 1] + [c]]
  }

  lemma PrependAppend(d: char, q: seq<string>, c: char)
    requires q != []
    ensures Prepend(d, Append(q, c)) == Append(Prepend(d, q), c)
  {
    var k, q' := |q| - 1, Append(q, c);
    if d == ',' {
      assert ([""] + q)[..k + 1] == [""] + q[..k];
    } else if k == 0 {
      assert [d] + (q[0] + [c]) == [d] + q[0] + [c];
    } else {
      assert q'[0] == q[0] && q'[1..] == q[1..k] + [q[k] + [c]];
      assert ([[d] + q[0]] + q[1..])[..k] == [[d] + q[0]] + q[1..k];
    }
  }

  lemma {:induction false} SplitSnoc(s: string, c: char)
    requires c != ','
    ensures Split(s + [c]) == Append(Split(s), c)
  {
    if s == [] {
      assert s + [c] == [c] && [c][1..] == [];
      assert [c] + "" == "" + [c];
    } else {
      SplitSnoc(s[1..], c);
      PrependAppend(s[0], Split(s[1..]), c);
      assert (s + [c])[1..] == s[1..] + [c];
    }
  }

  lemma {:induction false} ParseSame(parse: string -> Option<seq<nat>>, a: seq<string>, b: seq<string>, n: nat)
    requires n <= |a| && n <= |b| && forall i :: 0 <= i < n ==> parse(a[i]) == parse(b[i])
    ensures ParseAll(parse, a, n) == ParseAll(parse, b, n)
  {
    if n > 0 { ParseSame(parse, a, b, n - 1); }
  }

  function ParseSplit(s: string): Option<seq<nat>> {
    var parts := Split(s);
    ParseParts(parts, |parts|)
  }

  lemma LeadingSpace(s: string)
    requires s != [] && IsSpace(s[0])
    ensures ParseSplit(s) == ParseSplit(s[1..])
  {
    var b := Split(s[1..]);
    StripLeading(s[0], b[0]);
    ParsePrepend(ParsePart, s[0], b);
  }

  lemma StripLeading(c: char, x: string)
    requires IsSpace(c)
    ensures Strip([c] + x) == Strip(x)
  {
    assert ([c] + x)[1..] == x;
  }

  /** A character that the first part's parse ignores changes nothing. */
  lemma ParsePrepend(parse: string -> Option<seq<nat>>, c: char, b: seq<string>)
    requires b != [] && c != ',' && parse([c] + b[0]) == parse(b[0])
    ensures |Prepend(c, b)| == |b| && ParseAll(parse, Prepend(c, b), |b|) == ParseAll(parse, b, |b|)
  {
    ParseSame(parse, Prepend(c, b), b, |b|);
  }

  lemma TrailingSpace(s: string)
    requires s != [] && IsSpace(s[|s| - 1])
    ensures ParseSplit(s) == ParseSplit(s[..|s| - 1])
  {
    var n := |s| - 1;
    var c := s[n];
    assert s == s[..n] + [c];
    SplitSnoc(s[..n], c);
    var b := Split(s[..n]);
    var a := Append(b, c);
    StripSnoc(b[|b| - 1], c);
    ParseSame(ParsePart, a, b, |a|);
  }

  /** White space around the whole list changes nothing. */
  lemma {:induction false} StripList(s: string)
    ensures ParseSplit(Strip(s)) == ParseSplit(s)
    decreases |s|
  {
    if s != [] {
      if IsSpace(s[0]) {
        LeadingSpace(s);
        StripList(s[1..]);
      } else if IsSpace(s[|s| - 1]) {
        TrailingSpace(s);
        StripList(s[..|s| - 1]);
      }
    }
  }

  // --- Every spelling of a list -----------------------------------------------------------------

  /** One part of a list: nothing, a number, a number with an open range, or a range, perhaps empty. */
  datatype Part = Blank | One(n: nat) | Open(n: nat) | Range(lo: nat, hi: nat)

  /** A part with white space around it. */
  datatype Spelling = Spelling(pre: string, part: Part, post: string)

  function Core(p: Part): string {
    match p
    case Blank => ""
    case One(n) => Decimal(n)
    case Open(n) => Decimal(n) + "-"
    case Range(lo, hi) => Decimal(lo) + "-" + Decimal(hi)
  }

  function NumbersOf(p: Part): seq<nat> {
    match p
    case Blank => []
    case One(n) => [n]
    case Open(n) => [n]
    case Range(lo, hi) => Numbers(lo, hi)
  }

  function AllNumbers(ps: seq<Spelling>, n: nat): seq<nat>
    requires n <= |ps|
  {
    if n == 0 then [] else AllNumbers(ps, n - 1) + NumbersOf(ps[n - 1].part)
  }

  /** `texts` are the parts as spelled. */
  ghost predicate Spelled(ps: seq<Spelling>, texts: seq<string>) {
    && |texts| == |ps|
    && forall i :: 0 <= i < |ps| ==>
         Spaces(ps[i].pre) && Spaces(ps[i].post) && texts[i] == ps[i].pre + Core(ps[i].part) + ps[i].post
  }

  lemma CorePlain(p: Part)
    ensures Bare(Core(p)) && NoComma(Core(p)) && (Core(p) == [] <==> p.Blank?)
  {
    match p
    case Blank =>
    case One(n) => DecimalDigits(n);
    case Open(n) => DecimalDigits(n);
    case Range(lo, hi) => DecimalDigits(lo); DecimalDigits(hi);
  }

  lemma DigitsAreBare(s: string)
    requires Digits(s)
    ensures Strip(s) == s
  {
    assert IsDigit(s[0]) && IsDigit(s[|s| - 1]);
  }

  lemma OneNumber(n: nat)
    ensures Numbers(n, n) == [n]
  {
    assert Numbers(n, n) == [n] + Numbers(n + 1, n);
  }

  /** What follows the first number of a part: nothing, a lone dash, or a dash and a number. */
  lemma CoreParses(text: string, lo: nat, hi: nat, rest: string)
    requires Strip(text) == Decimal(lo) + rest
    requires rest == "" || rest == "-" || rest == "-" + Decimal(hi)
    ensures ParsePart(text) == Some(Numbers(lo, if |rest| <= 1 then lo else hi))
  {
    var a, b := Decimal(lo), Decimal(hi);
    DecimalDigits(lo);
    DecimalDigits(hi);
    DecimalBack(lo);
    DecimalBack(hi);
    DigitsAreBare(a);
    DigitsAreBare(b);
    DashAfterDigits(a, rest);
    var p := a + rest;
    assert p[..|a|] == a && p[|a|..] == rest;
    if rest != "" { assert p[|a| + 1..] == rest[1..]; }
  }

  lemma PartParses(s: Spelling, text: string)
    requires Spaces(s.pre) && Spaces(s.post) && text == s.pre + Core(s.part) + s.post
    ensures ParsePart(text) == Some(NumbersOf(s.part))
  {
    CorePlain(s.part);
    StripPadding(s.pre, Core(s.part), s.post);
    match s.part
    case Blank =>
    case One(n) =>
      assert Decimal(n) + "" == Decimal(n);
      CoreParses(text, n, n, "");
      OneNumber(n);
    case Open(n) =>
      CoreParses(text, n, n, "-");
      OneNumber(n);
    case Range(lo, hi) =>
      assert Decimal(lo) + "-" + Decimal(hi) == Decimal(lo) + ("-" + Decimal(hi));
      CoreParses(text, lo, hi, "-" + Decimal(hi));
  }

  lemma {:induction false} PartsTogether(parse: string -> Option<seq<nat>>, ps: seq<Spelling>, texts: seq<string>, n: nat)
    requires n <= |ps| == |texts| && forall i :: 0 <= i < n ==> parse(texts[i]) == Some(NumbersOf(ps[i].part))
    ensures ParseAll(parse, texts, n) == Some(AllNumbers(ps, n))
  {
    if n > 0 { PartsTogether(parse, ps, texts, n - 1); }
  }

  lemma SpelledNoComma(s: Spelling, text: string)
    requires Spaces(s.pre) && Spaces(s.post) && text == s.pre + Core(s.part) + s.post
    ensures NoComma(text)
  {
    CorePlain(s.part);
  }

  /**
   * Every list, however it is spelled, parses to the ascending union of its parts: in any order,
   * repeated or overlapping, with empty parts and ranges, with white space around any part.
   */
  lemma SpellingParses(ps: seq<Spelling>, texts: seq<string>)
    requires ps != [] && Spelled(ps, texts)
    ensures Parse(JoinComma(texts)) == Some(SortedSet(AllNumbers(ps, |ps|)))
  {
    forall i | 0 <= i < |texts| ensures NoComma(texts[i]) && ParsePart(texts[i]) == Some(NumbersOf(ps[i].part)) {
      SpelledNoComma(ps[i], texts[i]);
      PartParses(ps[i], texts[i]);
    }
    SplitJoined(texts);
    StripList(JoinComma(texts));
    PartsTogether(ParsePart, ps, texts, |ps|);
  }

  // --- Round trip -------------------------------------------------------------------------------

  function SpellingOf(r: Run): Spelling {
    Spelling("", if r.lo == r.hi then One(r.lo) else Range(r.lo, r.hi), "")
  }

  lemma SpellingText(r: Run)
    ensures Spell(r) == "" + Core(SpellingOf(r).part) + ""
  {
  }

  lemma SpellingNumbers(r: Run)
    ensures NumbersOf(SpellingOf(r).part) == Numbers(r.lo, r.hi)
  {
    if r.lo == r.hi { OneNumber(r.lo); }
  }

  lemma {:induction false} SpelledAt(rs: seq<Run>, i: nat)
    requires i < |rs|
    ensures SpellAll(rs)[i] == Spell(rs[i])
  {
    if i > 0 { SpelledAt(rs[1..], i - 1); }
  }

  lemma {:induction false} ExpandAppend(rs: seq<Run>, r: Run)
    ensures Expand(rs + [r]) == Expand(rs) + Numbers(r.lo, r.hi)
  {
    if rs == [] {
      assert rs + [r] == [r];
      assert Expand([r]) == Numbers(r.lo, r.hi) + [];
    } else {
      ExpandAppend(rs[1..], r);
      assert (rs + [r])[1..] == rs[1..] + [r];
      Associate(Numbers(rs[0].lo, rs[0].hi), Expand(rs[1..]), Numbers(r.lo, r.hi));
    }
  }

  lemma Associate(a: seq<nat>, b: seq<nat>, c: seq<nat>)
    ensures a + (b + c) == a + b + c
  {
  }

  lemma ExpandStep(rs: seq<Run>, n: nat)
    requires 0 < n <= |rs|
    ensures Expand(rs[..n]) == Expand(rs[..n - 1]) + Numbers(rs[n - 1].lo, rs[n - 1].hi)
  {
    ExpandAppend(rs[..n - 1], rs[n - 1]);
    assert rs[..n] == rs[..n - 1] + [rs[n - 1]];
  }

  ghost predicate RunsSpelled(rs: seq<Run>, ps: seq<Spelling>) {
    |ps| == |rs| && forall i :: 0 <= i < |rs| ==> ps[i] == SpellingOf(rs[i])
  }

  lemma {:induction false} ExpandSpelled(rs: seq<Run>, ps: seq<Spelling>, n: nat)
    requires RunsSpelled(rs, ps) && n <= |rs|
    ensures AllNumbers(ps, n) == Expand(rs[..n])
  {
    if n > 0 {
      ExpandSpelled(rs, ps, n - 1);
      ExpandStep(rs, n);
      SpellingNumbers(rs[n - 1]);
    }
  }

  /** Joined and spelled runs parse to exactly the numbers of the runs. */
  lemma JoinedParse(rs: seq<Run>)
    ensures Parse(JoinComma(SpellAll(rs))) == Some(SortedSet(Expand(rs)))
  {
    if rs == [] {
      var none: seq<nat> := [];
      assert none + none == none;
      assert ParseParts([""], 1) == Some(none);
    } else {
      var ps := seq(|rs|, i requires 0 <= i < |rs| => SpellingOf(rs[i]));
      forall i | 0 <= i < |rs| ensures SpellAll(rs)[i] == "" + Core(ps[i].part) + "" {
        SpelledAt(rs, i);
        SpellingText(rs[i]);
      }
      SpellingParses(ps, SpellAll(rs));
      ExpandSpelled(rs, ps, |rs|);
      assert rs[..|rs|] == rs;
    }
  }

  /** Whatever is printed parses back to the same numbers, ascending and each once. */
  lemma PrintParses(xs: seq<nat>)
    ensures Parse(Print(xs)) == Some(SortedSet(xs))
  {
    var c := SortedSet(xs);
    SortedSetKeeps(xs);
    ExpandRuns(c, 0);
    JoinedParse(RunsFrom(c, 0));
    SortedSetOfAscending(c);
  }

  /** Printing depends on, and determines, the set of numbers. */
  lemma PrintsSameIff(xs: seq<nat>, ys: seq<nat>)
    ensures Print(xs) == Print(ys) <==> (forall y :: y in xs <==> y in ys)
  {
    SortedSetKeeps(xs);
    SortedSetKeeps(ys);
    PrintParses(xs);
    PrintParses(ys);
    if forall y :: y in xs <==> y in ys { AscendingUnique(SortedSet(xs), SortedSet(ys)); }
  }

  /** What parses, printed, parses to the same again. */
  lemma ParsedPrintsBack(spec: string)
    requires Parse(spec).Some?
    ensures Parse(Print(Parse(spec).value)) == Parse(spec)
  {
    var parts := Split(Strip(spec));
    var xs := ParseParts(parts, |parts|).value;
    SortedSetKeeps(xs);
    SortedSetOfAscending(SortedSet(xs));
    PrintParses(SortedSet(xs));
  }
}
