/** The streaming selector of the one thread that dominates an overloaded link. */
module Contenders {
  import opened Machine
  import opened Ordered
  import opened Samples

  datatype LinkContender = LinkContender(tid: nat, score: u32, contenderCount: u32)

  /** What the selector is told about one thread. */
  datatype Scored = Scored(tid: nat, score: u32)

  // ----- the simple definition, over an unordered collection of scores -----

  /** A score beats another by at least one and by at least a tenth, rounded down. */
  predicate Clears(score: u32, other: u32) {
    score >= other + 1 && score >= other + other / 10
  }

  ghost predicate IsDominant(m: multiset<Scored>, w: Scored) {
    && |m| >= 2
    && w in m
    && forall c :: c in m - multiset{w} ==> Clears(w.score, c.score)
  }

  ghost predicate HasDominant(m: multiset<Scored>) {
    exists w :: IsDominant(m, w)
  }

  /** The scores on which saturation decides: a score at the integer limit whose rival is within a tenth of it. */
  ghost predicate SaturatedContest(m: multiset<Scored>) {
    exists w, c :: w in m && c in m - multiset{w} && w.score == U32_MAX && c.score + c.score / 10 > U32_MAX
  }

  ghost predicate AllScore(m: multiset<Scored>) {
    forall c :: c in m ==> c.score > 0
  }

  // ----- the streaming tally -----

  datatype Tally = Tally(count: u32, best: Option<LinkContender>, second: u32)

  const EMPTY_TALLY := Tally(0, None, 0)

  function Pushed(t: Tally, c: Scored): Tally {
    var count := SatAdd32(t.count, 1);
    var entry := LinkContender(c.tid, c.score, count);
    match t.best
    case None => Tally(count, Some(entry), t.second)
    case Some(best) =>
      if c.score >= best.score then Tally(count, Some(entry), best.score)
      else if c.score > t.second then Tally(count, t.best, c.score)
      else t.(count := count)
  }

  function TallyOf(cs: seq<Scored>): Tally {
    if cs == [] then EMPTY_TALLY else Pushed(TallyOf(cs[..|cs| - 1]), cs[|cs| - 1])
  }

  /** The addition to the runner-up's score wraps, as it does in a release build. */
  function WinnerOf(t: Tally): Option<LinkContender> {
    match t.best
    case None => None
    case Some(best) =>
      if t.count < 2 then None else
        var met :=
          if t.second > 0
          then best.score >= Max(SatAdd32(t.second, t.second / 10), (t.second + 1) % (U32_MAX + 1))
          else best.score >= 500;
        if met then Some(best.(contenderCount := t.count)) else None
  }

  ghost predicate IsGreatestScore(m: multiset<Scored>, s: u32) {
    && (m == multiset{} ==> s == 0)
    && (m != multiset{} ==> exists c :: c in m && c.score == s)
    && (forall c :: c in m ==> c.score <= s)
  }

  /** The tally holds a top scorer and the greatest score among all the others. */
  ghost predicate Summarises(t: Tally, m: multiset<Scored>) {
    && t.count == Min(|m|, U32_MAX)
    && (t.best.None? <==> m == multiset{})
    && (t.best.None? ==> t.second == 0)
    && (t.best.Some? ==>
          var b := Scored(t.best.value.tid, t.best.value.score);
          b in m && (forall c :: c in m ==> c.score <= b.score) && IsGreatestScore(m - multiset{b}, t.second))
  }

  lemma GreatestGrows(m: multiset<Scored>, s: u32, c: Scored)
    requires IsGreatestScore(m, s)
    ensures IsGreatestScore(m + multiset{c}, Max(s, c.score))
  {
    assert c in m + multiset{c} && forall x :: x in m ==> x in m + multiset{c};
  }

  lemma PushSummarises(t: Tally, m: multiset<Scored>, c: Scored)
    requires Summarises(t, m)
    ensures Summarises(Pushed(t, c), m + multiset{c})
  {
    var m' := m + multiset{c};
    assert c in m';
    if t.best.None? {
      assert m' - multiset{c} == multiset{};
    } else {
      var b := Scored(t.best.value.tid, t.best.value.score);
      if c.score >= b.score {
        assert m' - multiset{c} == m;
      } else {
        assert m' - multiset{b} == m - multiset{b} + multiset{c};
        GreatestGrows(m - multiset{b}, t.second, c);
      }
    }
  }

  lemma {:induction false} TallySummarises(cs: seq<Scored>)
    ensures Summarises(TallyOf(cs), multiset(cs))
  {
    if cs != [] {
      var init := cs[..|cs| - 1];
      TallySummarises(init);
      PushSummarises(TallyOf(init), multiset(init), cs[|cs| - 1]);
      assert cs == init + [cs[|cs| - 1]];
    }
  }

  /** The threshold of the stream: clear the runner-up, or meet a threshold that saturated. */
  lemma ThresholdMeaning(t: Tally)
    requires t.best.Some? && t.count >= 2 && 0 < t.second <= t.best.value.score
    ensures var best := t.best.value;
            WinnerOf(t) ==
            if Clears(best.score, t.second) || (best.score == U32_MAX && t.second + t.second / 10 > U32_MAX)
            then Some(LinkContender(best.tid, best.score, t.count)) else None
  {
  }

  /** An element is dominant exactly when it clears the best of the others. */
  lemma DominantClearsRunnerUp(m: multiset<Scored>, b: Scored, s: u32)
    requires |m| >= 2 && b in m && IsGreatestScore(m - multiset{b}, s)
    ensures IsDominant(m, b) <==> Clears(b.score, s)
  {
    assert |m - multiset{b}| == |m| - 1;
    forall c | c in m - multiset{b} && Clears(b.score, s) ensures Clears(b.score, c.score) {
      assert c.score / 10 <= s / 10;
    }
  }

  lemma DominantIsTop(m: multiset<Scored>, w: Scored, b: Scored)
    requires IsDominant(m, w) && b in m && forall c :: c in m ==> c.score <= b.score
    ensures w == b
  {
    assert w != b ==> b in m - multiset{w};
  }

  /** Whether saturation decides can be read off the top scorer and the runner-up alone. */
  lemma ContestAtTheTop(m: multiset<Scored>, b: Scored, r: Scored)
    requires b in m && forall c :: c in m ==> c.score <= b.score
    requires r in m - multiset{b} && forall c :: c in m - multiset{b} ==> c.score <= r.score
    ensures SaturatedContest(m) <==> (b.score == U32_MAX && r.score + r.score / 10 > U32_MAX)
    ensures HasDominant(m) <==> IsDominant(m, b)
  {
    if SaturatedContest(m) {
      var w, c :| w in m && c in m - multiset{w} && w.score == U32_MAX && c.score + c.score / 10 > U32_MAX;
      assert b.score == U32_MAX;
      if c in m - multiset{b} {
        assert c.score / 10 <= r.score / 10;
      } else {
        assert c == b && w != b;
        assert w in m - multiset{b};
      }
    }
    if HasDominant(m) {
      var w :| IsDominant(m, w);
      DominantIsTop(m, w, b);
    }
  }

  lemma VerdictOnTally(t: Tally, m: multiset<Scored>) returns (b: Scored)
    requires |m| >= 2 && AllScore(m) && Summarises(t, m)
    ensures b in m && forall c :: c in m ==> c.score <= b.score
    ensures WinnerOf(t) ==
            if IsDominant(m, b) || SaturatedContest(m) then Some(LinkContender(b.tid, b.score, t.count)) else None
    ensures IsDominant(m, b) ==> !SaturatedContest(m)
    ensures HasDominant(m) <==> IsDominant(m, b)
  {
    b := Scored(t.best.value.tid, t.best.value.score);
    var rest := m - multiset{b};
    assert |rest| == |m| - 1;
    var r :| r in rest && r.score == t.second;
    assert r in m;
    DominantClearsRunnerUp(m, b, t.second);
    ContestAtTheTop(m, b, r);
    ThresholdMeaning(t);
  }

  /** The verdict on two or more scores, in terms of the top scorer. */
  lemma WinnerVerdict(cs: seq<Scored>) returns (b: Scored)
    requires |cs| >= 2 && AllScore(multiset(cs))
    ensures b in multiset(cs) && forall c :: c in multiset(cs) ==> c.score <= b.score
    ensures WinnerOf(TallyOf(cs)) ==
            if IsDominant(multiset(cs), b) || SaturatedContest(multiset(cs))
            then Some(LinkContender(b.tid, b.score, Min(|cs|, U32_MAX))) else None
    ensures IsDominant(multiset(cs), b) ==> !SaturatedContest(multiset(cs))
    ensures HasDominant(multiset(cs)) <==> IsDominant(multiset(cs), b)
  {
    TallySummarises(cs);
    b := VerdictOnTally(TallyOf(cs), multiset(cs));
  }

  lemma TooFewToContest(m: multiset<Scored>)
    requires |m| < 2
    ensures !SaturatedContest(m)
  {
    forall w | w in m ensures m - multiset{w} == multiset{} {
      assert |m - multiset{w}| == |m| - 1;
    }
  }

  /**
   * The stream agrees with the simple definition exactly when saturation does not decide, and then
   * it names the dominant thread together with the number of scoring threads.
   */
  lemma WinnerIsDominant(cs: seq<Scored>)
    requires AllScore(multiset(cs))
    ensures (WinnerOf(TallyOf(cs)).Some? <==> HasDominant(multiset(cs))) <==> !SaturatedContest(multiset(cs))
    ensures !SaturatedContest(multiset(cs)) ==>
              forall w: Scored :: WinnerOf(TallyOf(cs)) == Some(LinkContender(w.tid, w.score, Min(|cs|, U32_MAX)))
                          <==> IsDominant(multiset(cs), w)
  {
    if |cs| >= 2 {
      var b := WinnerVerdict(cs);
      forall w | IsDominant(multiset(cs), w) ensures w == b {
        DominantIsTop(multiset(cs), w, b);
      }
    } else {
      TallySummarises(cs);
      TooFewToContest(multiset(cs));
    }
  }

  /** Two different threads score the integer limit. */
  ghost predicate TiedAtTheLimit(m: multiset<Scored>) {
    exists a, b :: a in m && b in m && a != b && a.score == U32_MAX && b.score == U32_MAX
  }

  /** Without such a tie, the verdict is a matter of the scores alone. */
  lemma UntiedIgnoresOrder(cs: seq<Scored>, ds: seq<Scored>)
    requires multiset(cs) == multiset(ds) && AllScore(multiset(cs)) && !TiedAtTheLimit(multiset(cs))
    ensures WinnerOf(TallyOf(cs)) == WinnerOf(TallyOf(ds))
  {
    var m := multiset(cs);
    assert |cs| == |m| == |ds|;
    if |cs| < 2 {
      TallySummarises(cs);
      TallySummarises(ds);
    } else {
      var a := WinnerVerdict(cs);
      var b := WinnerVerdict(ds);
      if IsDominant(m, a) {
        DominantIsTop(m, a, b);
      } else if SaturatedContest(m) {
        assert a.score == U32_MAX && b.score == U32_MAX;
      }
    }
  }

  lemma TieIsContest(m: multiset<Scored>)
    requires TiedAtTheLimit(m)
    ensures SaturatedContest(m) && |m| >= 2
  {
    var x, y :| x in m && y in m && x != y && x.score == U32_MAX && y.score == U32_MAX;
    assert y in m - multiset{x};
    assert multiset{x, y} <= m && |m| == |multiset{x, y}| + |m - multiset{x, y}|;
  }

  lemma LimitIsBest(t: Tally, a: Scored)
    requires a.score == U32_MAX
    ensures Pushed(t, a).best.Some? && Pushed(t, a).best.value.tid == a.tid
    ensures WinnerOf(Pushed(t, a)).Some? ==> WinnerOf(Pushed(t, a)).value.tid == a.tid
  {
  }

  /** With such a tie, the one visited last wins. */
  lemma LastAtTheLimitWins(cs: seq<Scored>, a: Scored)
    requires AllScore(multiset(cs + [a])) && a.score == U32_MAX && TiedAtTheLimit(multiset(cs + [a]))
    ensures WinnerOf(TallyOf(cs + [a])).Some? && WinnerOf(TallyOf(cs + [a])).value.tid == a.tid
  {
    TieIsContest(multiset(cs + [a]));
    assert (cs + [a])[..|cs|] == cs;
    LimitIsBest(TallyOf(cs), a);
    var b := WinnerVerdict(cs + [a]);
  }

  /** The same threads with the given one visited last. */
  lemma VisitedLast(cs: seq<Scored>, a: Scored) returns (rest: seq<Scored>)
    requires a in multiset(cs)
    ensures multiset(rest + [a]) == multiset(cs)
  {
    var i :| 0 <= i < |cs| && cs[i] == a;
    rest := cs[..i] + cs[i + 1..];
    assert cs == cs[..i] + [a] + cs[i + 1..];
  }

  ghost predicate IgnoresOrder(cs: seq<Scored>) {
    forall ds | multiset(ds) == multiset(cs) :: WinnerOf(TallyOf(ds)) == WinnerOf(TallyOf(cs))
  }

  /** Two orders of the same threads with different winners. */
  lemma TieDependsOnOrder(cs: seq<Scored>) returns (x: seq<Scored>, y: seq<Scored>)
    requires AllScore(multiset(cs)) && TiedAtTheLimit(multiset(cs))
    ensures multiset(x) == multiset(cs) == multiset(y) && WinnerOf(TallyOf(x)) != WinnerOf(TallyOf(y))
  {
    var a, b :| a in multiset(cs) && b in multiset(cs) && a != b && a.score == U32_MAX && b.score == U32_MAX;
    x := VisitedLast(cs, a);
    y := VisitedLast(cs, b);
    LastAtTheLimitWins(x, a);
    LastAtTheLimitWins(y, b);
    x, y := x + [a], y + [b];
  }

  /** The order in which threads are visited matters exactly when two of them score the integer limit. */
  lemma WinnerIgnoresOrder(cs: seq<Scored>)
    requires AllScore(multiset(cs))
    ensures IgnoresOrder(cs) <==> !TiedAtTheLimit(multiset(cs))
  {
    if TiedAtTheLimit(multiset(cs)) {
      var x, y := TieDependsOnOrder(cs);
      assert IgnoresOrder(cs) ==> WinnerOf(TallyOf(x)) == WinnerOf(TallyOf(cs)) == WinnerOf(TallyOf(y));
    } else {
      forall ds | multiset(ds) == multiset(cs) ensures WinnerOf(TallyOf(ds)) == WinnerOf(TallyOf(cs)) {
        UntiedIgnoresOrder(ds, cs);
      }
    }
  }

  lemma TallyOfTwo(a: Scored, b: Scored)
    ensures TallyOf([a, b]) == Pushed(Pushed(EMPTY_TALLY, a), b)
  {
    var one, two := [a], [a, b];
    assert two[..1] == one && one[..0] == [];
    assert TallyOf(one) == Pushed(TallyOf([]), a);
  }

  /** Two threads at the integer limit: neither beats the other, yet whichever is visited later is returned. */
  lemma SaturationBreaksDominance()
    ensures var a, b := Scored(1, U32_MAX), Scored(2, U32_MAX);
            && WinnerOf(TallyOf([a, b])) == Some(LinkContender(2, U32_MAX, 2))
            && WinnerOf(TallyOf([b, a])) == Some(LinkContender(1, U32_MAX, 2))
            && !HasDominant(multiset([a, b])) && multiset([a, b]) == multiset([b, a])
  {
    var a, b := Scored(1, U32_MAX), Scored(2, U32_MAX);
    TallyOfTwo(a, b);
    TallyOfTwo(b, a);
    if w :| IsDominant(multiset([a, b]), w) {
      DominantIsTop(multiset([a, b]), w, a);
      DominantIsTop(multiset([a, b]), w, b);
    }
  }

  /** The selector object. */
  class LinkContenders {
    var candidateCount: u32
    var best: Option<LinkContender>
    var secondBest: u32

    ghost function Value(): Tally
      reads this
    {
      Tally(candidateCount, best, secondBest)
    }

    constructor ()
      ensures Value() == EMPTY_TALLY
    {
      candidateCount, best, secondBest := 0, None, 0;
    }

    method Push(c: Scored)
      modifies this
      ensures Value() == Pushed(old(Value()), c)
    {
      candidateCount := SatAdd32(candidateCount, 1);
      var contender := LinkContender(c.tid, c.score, candidateCount);
      match best {
        case None =>
          best := Some(contender);
        case Some(top) =>
          if contender.score >= top.score {
            secondBest := top.score;
            best := Some(contender);
          } else if contender.score > secondBest {
            secondBest := contender.score;
          }
      }
    }

    method Winner() returns (w: Option<LinkContender>)
      ensures w == WinnerOf(Value())
    {
      if best.None? || candidateCount < 2 {
        return None;
      }
      var thresholdMet: bool;
      if secondBest > 0 {
        thresholdMet := best.value.score >= Max(SatAdd32(secondBest, secondBest / 10), (secondBest + 1) % (U32_MAX + 1));
      } else {
        thresholdMet := best.value.score >= 500;
      }
      return if thresholdMet then Some(best.value.(contenderCount := candidateCount)) else None;
    }
  }

  // ----- choosing one contender per overloaded victim link -----

  datatype Thread = Thread(tid: nat, lastSeen: u64, evidenceValid: bool, evidence: seq<u32>)

  function ThreadScore(t: Thread, link: nat): u32 {
    if !t.evidenceValid || link >= |t.evidence| then 0 else t.evidence[link]
  }

  /** The threads with evidence on the link, in the order of their keys. */
  function ScoresOn(threads: seq<Thread>, link: nat): seq<Scored> {
    if threads == [] then [] else
      var init, last := ScoresOn(threads[..|threads| - 1], link), threads[|threads| - 1];
      if ThreadScore(last, link) == 0 then init else init + [Scored(last.tid, ThreadScore(last, link))]
  }

  lemma {:induction false} ScoresArePositive(threads: seq<Thread>, link: nat)
    ensures AllScore(multiset(ScoresOn(threads, link)))
  {
    if threads != [] {
      ScoresArePositive(threads[..|threads| - 1], link);
    }
  }

  /** The scores compared are those of the threads with evidence on the link. */
  lemma {:induction false} ScoresAreEvidence(threads: seq<Thread>, link: nat, c: Scored)
    ensures c in ScoresOn(threads, link) <==>
            exists i :: 0 <= i < |threads| && threads[i].tid == c.tid && ThreadScore(threads[i], link) == c.score > 0
  {
    if threads != [] {
      var init, last := threads[..|threads| - 1], threads[|threads| - 1];
      ScoresAreEvidence(init, link, c);
      assert threads == init + [last];
    }
  }

  /**
   * On a real list of threads: unless saturation decides, a link has a top contender exactly when one of the threads
   * with evidence on it dominates all others, and then it is that thread.
   */
  lemma TopContenderDominates(threads: seq<Thread>, link: nat)
    ensures var scores := ScoresOn(threads, link);
            var m, top := multiset(scores), WinnerOf(TallyOf(scores));
            && ((top.Some? <==> HasDominant(m)) <==> !SaturatedContest(m))
            && (!SaturatedContest(m) ==>
                  forall w: Scored :: top == Some(LinkContender(w.tid, w.score, Min(|scores|, U32_MAX))) <==> IsDominant(m, w))
  {
    ScoresArePositive(threads, link);
    WinnerIsDominant(ScoresOn(threads, link));
  }

  method TopContender(threads: seq<Thread>, link: nat) returns (w: Option<LinkContender>)
    ensures w == WinnerOf(TallyOf(ScoresOn(threads, link)))
  {
    var contenders := new LinkContenders();
    var i := 0;
    while i < |threads|
      invariant 0 <= i <= |threads|
      invariant contenders.Value() == TallyOf(ScoresOn(threads[..i], link))
    {
      assert threads[..i + 1][..i] == threads[..i];
      var score := ThreadScore(threads[i], link);
      if score != 0 {
        ghost var before := ScoresOn(threads[..i], link);
        contenders.Push(Scored(threads[i].tid, score));
        assert (before + [Scored(threads[i].tid, score)])[..|before|] == before;
      }
      i := i + 1;
    }
    assert threads[..|threads|] == threads;
    w := contenders.Winner();
  }

  /** Everything the chooser reads in one round; the threads are listed in the order of their keys. */
  datatype Round = Round(
    threads: seq<Thread>, victims: set<nat>, states: seq<Option<DfState>>, capacities: seq<Option<u32>>,
    fallbacks: map<nat, LinkContender>, now: u64, cfg: Policy)
  {
    function LinkCount(): nat { Min(|states|, MAX_DOMAINS) }

    function Overload(link: nat): u32 { LiveOverload(states, capacities, link, now, cfg) }

    /** The contender, or else the fallback, of a victim link that is overloaded right now. */
    function Fresh(link: nat): Option<LinkContender> {
      if link !in victims || Overload(link) == 0 then None
      else
        WinnerOf(TallyOf(ScoresOn(threads, link)))
        .Or(if link in fallbacks then Some(fallbacks[link]) else None)
    }
  }

  /** The villain of a victim link: its top contender under live overload, or else the fallback. */
  method FreshVillain(r: Round, link: nat) returns (villain: Option<LinkContender>)
    requires link in r.victims
    ensures villain == r.Fresh(link)
  {
    villain := None;
    if r.Overload(link) > 0 {
      villain := TopContender(r.threads, link);
      if villain.None? && link in r.fallbacks {
        villain := Some(r.fallbacks[link]);
      }
    }
  }

  /** Visits the victim links in order; every other slot stays empty. */
  method ChooseLinkVillains(r: Round) returns (out: seq<Option<LinkContender>>)
    ensures |out| == r.LinkCount()
    ensures forall link: nat :: link < |out| ==> out[link] == r.Fresh(link)
    ensures forall link: nat :: link < |out| && out[link].Some? ==> link in r.victims && r.Overload(link) > 0
  {
    out := seq(r.LinkCount(), _ => None);
    var order := Ascending(r.victims);
    for i := 0 to |order|
      invariant |out| == r.LinkCount() && FilledTo(r, out, order, i)
    {
      ghost var before := out;
      if order[i] < |out| {
        var villain := FreshVillain(r, order[i]);
        out := out[order[i] := villain];
      }
      FillNext(r, before, out, order, i);
    }
    assert order[..|order|] == order;
    forall link: nat | link < |out| ensures out[link] == r.Fresh(link) {
      OnlyVictimsHaveVillains(r, link);
      assert link in r.victims ==> link in order;
    }
    forall link: nat | link < |out| && out[link].Some? ensures link in r.victims && r.Overload(link) > 0 {
      OnlyVictimsHaveVillains(r, link);
    }
  }

  /** The first `i` links of the order have their villains, and the others none yet. */
  ghost predicate FilledTo(r: Round, out: seq<Option<LinkContender>>, order: seq<nat>, i: nat) {
    i <= |order| && forall link: nat :: link < |out| ==> out[link] == if link in order[..i] then r.Fresh(link) else None
  }

  lemma FillNext(r: Round, before: seq<Option<LinkContender>>, after: seq<Option<LinkContender>>, order: seq<nat>, i: nat)
    requires i < |order| && FilledTo(r, before, order, i)
    requires after == if order[i] < |before| then before[order[i] := r.Fresh(order[i])] else before
    ensures FilledTo(r, after, order, i + 1)
  {
    assert order[..i + 1] == order[..i] + [order[i]];
  }

  lemma OnlyVictimsHaveVillains(r: Round, link: nat)
    ensures r.Fresh(link).Some? ==> link in r.victims && r.Overload(link) > 0
  {
  }
}
