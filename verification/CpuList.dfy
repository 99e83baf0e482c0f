/** The cpulist text format: printing a CPU set as comma-separated runs, and reading such text back. */
module CpuList {
  import opened Machine
  import opened Ordered

  // ----- decimal numbers -----

  predicate IsDigit(c: char) { '0' <= c <= '9' }

  function DigitValue(c: char): nat
    requires IsDigit(c)
  {
    c as int - '0' as int
  }

  function Decimal(n: nat): string {
    if n < 10 then [('0' as int + n) as char] else Decimal(n / 10) + [('0' as int + n % 10) as char]
  }

  predicate AllDigits(s: string) { forall i :: 0 <= i < |s| ==> IsDigit(s[i]) }

  function DecimalValue(s: string): nat
    requires AllDigits(s)
  {
    if s == "" then 0 else 10 * DecimalValue(s[..|s| - 1]) + DigitValue(s[|s| - 1])
  }

  /** `str::parse::<u32>`: an optional plus sign, at least one digit, and no overflow. */
  function ParseU32(s: string): Option<u32> {
    var body := if s != "" && s[0] == '+' then s[1..] else s;
    if body == "" || !AllDigits(body) || DecimalValue(body) > U32_MAX then None else Some(DecimalValue(body))
  }

  lemma {:induction false} DecimalRoundTrip(n: nat)
    ensures Decimal(n) != "" && AllDigits(Decimal(n)) && DecimalValue(Decimal(n)) == n
  {
    if n >= 10 {
      DecimalRoundTrip(n / 10);
      assert Decimal(n)[..|Decimal(n)| - 1] == Decimal(n / 10);
    } else {
      assert Decimal(n)[..0] == "";
    }
  }

  lemma ParsePrintedNumber(n: u32)
    ensures ParseU32(Decimal(n)) == Some(n)
  {
    DecimalRoundTrip(n);
    assert IsDigit(Decimal(n)[0]);
  }

  // ----- text -----

  /** Unicode white space, as `str::trim` removes it. */
  predicate IsWhite(c: char) {
    var x := c as int;
    || 0x09 <= x <= 0x0D || x == 0x20 || x == 0x85 || x == 0xA0 || x == 0x1680 || 0x2000 <= x <= 0x200A
    || x == 0x2028 || x == 0x2029 || x == 0x202F || x == 0x205F || x == 0x3000
  }

  function Trim(s: string): string {
    if s == "" then ""
    else if IsWhite(s[0]) then Trim(s[1..])
    else if IsWhite(s[|s| - 1]) then Trim(s[..|s| - 1])
    else s
  }

  function Split(s: string): (parts: seq<string>)
    ensures |parts| >= 1
  {
    if s == "" then [""]
    else
      var rest := Split(s[1..]);
      if s[0] == ',' then [""] + rest else [[s[0]] + rest[0]] + rest[1..]
  }

  /** `str::split_once('-')`. */
  function SplitDash(s: string): Option<(string, string)> {
    if s == "" then None
    else if s[0] == '-' then Some(("", s[1..]))
    else match SplitDash(s[1..])
      case None => None
      case Some((a, b)) => Some(([s[0]] + a, b))
  }

  function Join(parts: seq<string>): string {
    if parts == [] then "" else if |parts| == 1 then parts[0] else parts[0] + "," + Join(parts[1..])
  }

  predicate Plain(s: string) { s != "" && forall i :: 0 <= i < |s| ==> IsDigit(s[i]) || s[i] == '-' }

  lemma PlainIsTrimmed(s: string)
    requires Plain(s)
    ensures Trim(s) == s
  {
    assert !IsWhite(s[0]) && !IsWhite(s[|s| - 1]);
  }

  lemma {:induction false} SplitAt(p: string, rest: string)
    requires ',' !in p
    ensures Split(p) == [p]
    ensures Split(p + "," + rest) == [p] + Split(rest)
  {
    var whole := p + "," + rest;
    if p == "" {
      assert whole[1..] == rest;
    } else {
      SplitAt(p[1..], rest);
      assert whole[1..] == p[1..] + "," + rest;
      assert p == [p[0]] + p[1..];
    }
  }

  lemma {:induction false} SplitJoin(parts: seq<string>)
    requires parts != [] && forall i :: 0 <= i < |parts| ==> Plain(parts[i])
    ensures Split(Join(parts)) == parts
    ensures Trim(Join(parts)) == Join(parts)
    ensures |Join(parts)| > 0 && !IsWhite(Join(parts)[0]) && !IsWhite(Join(parts)[|Join(parts)| - 1])
  {
    assert Plain(parts[0]);
    if |parts| == 1 {
      SplitAt(parts[0], "");
    } else {
      SplitJoin(parts[1..]);
      SplitAt(parts[0], Join(parts[1..]));
    }
  }

  lemma {:induction false} SplitDashAt(a: string, b: string)
    requires '-' !in a
    ensures SplitDash(a) == None
    ensures SplitDash(a + "-" + b) == Some((a, b))
  {
    var whole := a + "-" + b;
    if a == "" {
      assert whole[1..] == b;
    } else {
      SplitDashAt(a[1..], b);
      assert whole[1..] == a[1..] + "-" + b;
      assert a == [a[0]] + a[1..];
    }
  }

  // ----- reading -----

  function Interval(lo: nat, hi: nat): (r: set<nat>)
    ensures forall x: nat :: x in r <==> lo <= x <= hi
    decreases hi
  {
    if lo > hi then {} else if lo == hi then {lo} else Interval(lo, hi - 1) + {hi}
  }

  /** The CPUs one comma-separated part names; a malformed part names none. */
  function PartCpus(part: string): set<nat> {
    var p := Trim(part);
    if p == "" then {}
    else match SplitDash(p)
      case Some((a, b)) =>
        var lo, hi := ParseU32(Trim(a)), ParseU32(Trim(b));
        if lo.None? || hi.None? then {} else Interval(lo.value, hi.value)
      case None =>
        match ParseU32(p)
        case None => {}
        case Some(v) => {v}
  }

  function Union(sets: seq<set<nat>>): set<nat> {
    if sets == [] then {} else Union(sets[..|sets| - 1]) + sets[|sets| - 1]
  }

  function PartSets(parts: seq<string>): (r: seq<set<nat>>)
    ensures |r| == |parts| && forall i :: 0 <= i < |r| ==> r[i] == PartCpus(parts[i])
  {
    seq(|parts|, i requires 0 <= i < |parts| => PartCpus(parts[i]))
  }

  function Parsed(text: string): set<nat> { Union(PartSets(Split(Trim(text)))) }

  method AddRange(cpus: set<nat>, lo: nat, hi: nat) returns (r: set<nat>)
    ensures r == cpus + Interval(lo, hi)
  {
    r := cpus;
    var cpu := lo;
    while cpu <= hi
      invariant lo <= cpu && (cpu == lo || cpu - 1 <= hi)
      invariant forall x: nat :: x in r <==> x in cpus || lo <= x < cpu
    {
      r := r + {cpu};
      cpu := cpu + 1;
    }
  }

  method ParseCpuList(text: string) returns (cpus: set<nat>)
    ensures cpus == Parsed(text)
  {
    cpus := {};
    var parts := Split(Trim(text));
    ghost var sets := PartSets(parts);
    var i := 0;
    while i < |parts|
      invariant 0 <= i <= |parts|
      invariant cpus == Union(sets[..i])
    {
      assert sets[..i + 1][..i] == sets[..i];
      var part := Trim(parts[i]);
      if part != "" {
        var dash := SplitDash(part);
        if dash.Some? {
          var lo, hi := ParseU32(Trim(dash.value.0)), ParseU32(Trim(dash.value.1));
          if lo.Some? && hi.Some? {
            cpus := AddRange(cpus, lo.value, hi.value);
          }
        } else {
          var v := ParseU32(part);
          if v.Some? {
            cpus := cpus + {v.value};
          }
        }
      }
      i := i + 1;
    }
    assert sets[..|sets|] == sets;
  }

  // ----- printing -----

  datatype Run = Run(first: nat, last: nat)

  function RunEnd(s: seq<nat>, i: nat): (e: nat)
    requires i < |s|
    ensures i <= e < |s|
    decreases |s| - i
  {
    if i + 1 < |s| && s[i + 1] == s[i] + 1 then RunEnd(s, i + 1) else i
  }

  function RunsFrom(s: seq<nat>, i: nat): seq<Run>
    decreases |s| - i
  {
    if i >= |s| then [] else
      var e := RunEnd(s, i);
      [Run(s[i], s[e])] + RunsFrom(s, e + 1)
  }

  function RunText(r: Run): string {
    if r.first == r.last then Decimal(r.first) else Decimal(r.first) + "-" + Decimal(r.last)
  }

  function Texts(runs: seq<Run>): (r: seq<string>)
    ensures |r| == |runs| && forall i :: 0 <= i < |r| ==> r[i] == RunText(runs[i])
  {
    if runs == [] then [] else [RunText(runs[0])] + Texts(runs[1..])
  }

  function Printed(cpus: set<nat>): string { Join(Texts(RunsFrom(Ascending(cpus), 0))) }

  /** A run is contiguous and cannot be extended to the right. */
  lemma {:induction false} RunEndIsMaximal(s: seq<nat>, i: nat)
    requires StrictlyAscending(s) && i < |s|
    ensures var e := RunEnd(s, i);
            && (forall k :: i <= k <= e ==> s[k] == s[i] + (k - i))
            && (e + 1 < |s| ==> s[e + 1] > s[e] + 1)
    decreases |s| - i
  {
    if i + 1 < |s| && s[i + 1] == s[i] + 1 {
      RunEndIsMaximal(s, i + 1);
    }
  }

  /** Runs are in order with a gap between neighbours, so they are the maximal runs of the set. */
  ghost predicate Separated(runs: seq<Run>) {
    && (forall i :: 0 <= i < |runs| ==> runs[i].first <= runs[i].last)
    && (forall i, j :: 0 <= i < j < |runs| ==> runs[i].last + 1 < runs[j].first)
  }

  ghost predicate Covers(runs: seq<Run>, x: nat) {
    exists i :: 0 <= i < |runs| && runs[i].first <= x <= runs[i].last
  }

  lemma SeparatedCons(head: Run, rest: seq<Run>)
    requires head.first <= head.last && Separated(rest)
    requires forall k :: 0 <= k < |rest| ==> head.last + 1 < rest[k].first
    ensures Separated([head] + rest)
  {
    var runs := [head] + rest;
    forall i, j | 0 <= i < j < |runs| ensures runs[i].last + 1 < runs[j].first {
      assert runs[j] == rest[j - 1];
    }
  }

  lemma {:induction false} RunsAreMaximal(s: seq<nat>, i: nat)
    requires StrictlyAscending(s)
    ensures Separated(RunsFrom(s, i))
    ensures forall k :: 0 <= k < |RunsFrom(s, i)| ==> i < |s| && s[i] <= RunsFrom(s, i)[k].first && RunsFrom(s, i)[k].last in s
    decreases |s| - i
  {
    if i < |s| {
      var e := RunEnd(s, i);
      RunEndIsMaximal(s, i);
      RunsAreMaximal(s, e + 1);
      SeparatedCons(Run(s[i], s[e]), RunsFrom(s, e + 1));
    }
  }

  lemma RunIsInterval(s: seq<nat>, i: nat, e: nat, x: nat)
    requires i <= e < |s| && forall k :: i <= k <= e ==> s[k] == s[i] + (k - i)
    ensures x in s[i..e + 1] <==> s[i] <= x <= s[e]
  {
    if s[i] <= x <= s[e] {
      assert s[i..e + 1][x - s[i]] == s[x - s[i] + i];
    }
  }

  lemma {:induction false} RunsCover(s: seq<nat>, i: nat, x: nat)
    requires StrictlyAscending(s) && i <= |s|
    ensures Covers(RunsFrom(s, i), x) <==> x in s[i..]
    decreases |s| - i
  {
    if i < |s| {
      var e := RunEnd(s, i);
      var head, rest := Run(s[i], s[e]), RunsFrom(s, e + 1);
      RunEndIsMaximal(s, i);
      RunsCover(s, e + 1, x);
      CoversCons(head, rest, x);
      RunIsInterval(s, i, e, x);
      assert s[i..] == s[i..e + 1] + s[e + 1..];
    }
  }

  lemma CoversCons(head: Run, rest: seq<Run>, x: nat)
    ensures Covers([head] + rest, x) <==> head.first <= x <= head.last || Covers(rest, x)
  {
    var runs := [head] + rest;
    if head.first <= x <= head.last {
      assert runs[0].first <= x <= runs[0].last;
    } else if Covers(rest, x) {
      var k :| 0 <= k < |rest| && rest[k].first <= x <= rest[k].last;
      assert runs[k + 1] == rest[k];
    }
  }

  lemma NumberReadsBack(n: u32)
    ensures Plain(Decimal(n)) && '-' !in Decimal(n) && PartCpus(Decimal(n)) == Interval(n, n)
  {
    DecimalRoundTrip(n);
    ParsePrintedNumber(n);
    PlainIsTrimmed(Decimal(n));
    SplitDashAt(Decimal(n), "");
  }

  lemma PairReadsBack(lo: u32, hi: u32)
    ensures Plain(Decimal(lo) + "-" + Decimal(hi)) && PartCpus(Decimal(lo) + "-" + Decimal(hi)) == Interval(lo, hi)
  {
    NumberReadsBack(lo);
    NumberReadsBack(hi);
    ParsePrintedNumber(lo);
    ParsePrintedNumber(hi);
    SplitDashAt(Decimal(lo), Decimal(hi));
    PlainIsTrimmed(Decimal(lo));
    PlainIsTrimmed(Decimal(hi));
    PlainIsTrimmed(Decimal(lo) + "-" + Decimal(hi));
  }

  lemma RunTextReadsBack(r: Run)
    requires r.first <= r.last <= U32_MAX
    ensures Plain(RunText(r)) && PartCpus(RunText(r)) == Interval(r.first, r.last)
  {
    if r.first == r.last {
      NumberReadsBack(r.first);
    } else {
      PairReadsBack(r.first, r.last);
    }
  }

  lemma {:induction false} UnionMembers(sets: seq<set<nat>>, x: nat)
    ensures x in Union(sets) <==> exists i :: 0 <= i < |sets| && x in sets[i]
  {
    if sets != [] {
      var init := sets[..|sets| - 1];
      UnionMembers(init, x);
      assert forall i :: 0 <= i < |init| ==> init[i] == sets[i];
    }
  }

  lemma PartsReadBack(runs: seq<Run>, x: nat)
    requires Separated(runs) && forall i :: 0 <= i < |runs| ==> runs[i].last <= U32_MAX
    ensures forall i :: 0 <= i < |runs| ==> Plain(Texts(runs)[i])
    ensures x in Union(PartSets(Texts(runs))) <==> Covers(runs, x)
  {
    var parts := Texts(runs);
    var sets := PartSets(parts);
    forall i | 0 <= i < |runs|
      ensures Plain(parts[i]) && (x in sets[i] <==> runs[i].first <= x <= runs[i].last)
    {
      RunTextReadsBack(runs[i]);
    }
    UnionMembers(sets, x);
  }

  lemma ParsedRuns(runs: seq<Run>, x: nat)
    requires runs != [] && Separated(runs) && forall i :: 0 <= i < |runs| ==> runs[i].last <= U32_MAX
    ensures x in Parsed(Join(Texts(runs))) <==> Covers(runs, x)
  {
    PartsReadBack(runs, x);
    SplitJoin(Texts(runs));
  }

  lemma EmptyReadsBack()
    ensures Parsed("") == {}
  {
    assert PartSets([""]) == [{}];
    assert Union([{}]) == Union([{}][..0]) + {};
  }

  /** Reading back what is printed gives the same set, the empty set included. */
  lemma CpuListRoundTrip(cpus: set<u32>)
    ensures Parsed(Printed(cpus)) == cpus
  {
    var s := Ascending(cpus);
    var runs := RunsFrom(s, 0);
    RunsAreMaximal(s, 0);
    if s == [] {
      EmptyReadsBack();
    } else {
      RunsCover(s, 0, s[0]);
      forall i | 0 <= i < |runs| ensures runs[i].last <= U32_MAX {
        assert runs[i].last in cpus;
      }
      forall x: nat ensures x in Parsed(Printed(cpus)) <==> x in cpus {
        ParsedRuns(runs, x);
        RunsCover(s, 0, x);
        assert s[0..] == s;
      }
    }
  }

  lemma TextsAppend(runs: seq<Run>, r: Run)
    ensures Texts(runs + [r]) == Texts(runs) + [RunText(r)]
  {
  }

  lemma RunsContinue(s: seq<nat>, done: seq<Run>, i: nat, e: nat)
    requires i < |s| && e == RunEnd(s, i) && done + RunsFrom(s, i) == RunsFrom(s, 0)
    ensures done + [Run(s[i], s[e])] + RunsFrom(s, e + 1) == RunsFrom(s, 0)
  {
    MoveAcross(done, Run(s[i], s[e]), RunsFrom(s, e + 1));
  }

  lemma MoveAcross<T>(a: seq<T>, x: T, b: seq<T>)
    ensures a + ([x] + b) == a + [x] + b
  {
  }

  method PrintRuns(s: seq<nat>) returns (out: seq<string>)
    ensures out == Texts(RunsFrom(s, 0))
  {
    out := [];
    ghost var done: seq<Run> := [];
    var i := 0;
    while i < |s|
      invariant 0 <= i <= |s|
      invariant out == Texts(done) && done + RunsFrom(s, i) == RunsFrom(s, 0)
    {
      var start := s[i];
      var end := start;
      ghost var first := i;
      i := i + 1;
      while i < |s| && s[i] == end + 1
        invariant first < i <= |s| && end == s[i - 1]
        invariant RunEnd(s, first) == RunEnd(s, i - 1)
      {
        end := s[i];
        i := i + 1;
      }
      ghost var run := Run(start, end);
      if start == end {
        out := out + [Decimal(start)];
      } else {
        out := out + [Decimal(start) + "-" + Decimal(end)];
      }
      TextsAppend(done, run);
      RunsContinue(s, done, first, i - 1);
      done := done + [run];
    }
    assert done + [] == done;
  }

  /** Prints the maximal runs of the set in ascending order. */
  method CpusToCpuList(cpus: set<u32>) returns (text: string)
    ensures text == Printed(cpus)
    ensures Parsed(text) == cpus
  {
    var out := PrintRuns(Ascending(cpus));
    text := Join(out);
    CpuListRoundTrip(cpus);
  }
}
