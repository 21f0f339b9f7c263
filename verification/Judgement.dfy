/** Judgement layer 2: the triage of candidate feeds and the scoring of the borderline ones. Ratios are
    exact rationals here. */
module Judgement {
  import opened Options

  const FEED_KEYWORDS_MIN := 5

  /** keywords are None when the stored list does not decode. */
  datatype Candidate = Candidate(feed: string, keywords: Option<seq<string>>, overlap: nat)

  datatype Decision = AutoAssociated | Judged | Discarded

  datatype Result = Result(feed: string, overlap: nat, decision: Decision, score: int, passed: bool)

  datatype Evaluator = Evaluator(threshold: int, ratio: real, minMatches: int)

  /** The decision for a feed of k keywords: the ratio is asked first. */
  function Triage(e: Evaluator, k: nat, overlap: nat): Decision {
    if k > 0 && overlap as real / k as real >= e.ratio then AutoAssociated
    else if overlap < e.minMatches then Discarded
    else Judged
  }

  predicate Borderline(e: Evaluator, c: Candidate) {
    c.keywords.Some? && Triage(e, |c.keywords.value|, c.overlap) == Judged
  }

  /** The candidates that reach the judger, by position. */
  function Asked(e: Evaluator, cands: seq<Candidate>): seq<nat> {
    if cands == [] then []
    else
      var n := |cands| - 1;
      Asked(e, cands[..n]) + if Borderline(e, cands[n]) then [n] else []
  }

  /** The i-th result when judge(n) is the judger's answer to its n-th call. */
  function ResultAt(e: Evaluator, cands: seq<Candidate>, judge: nat -> Option<int>, i: nat): Result
    requires i < |cands|
  {
    var c := cands[i];
    var k := if c.keywords.Some? then |c.keywords.value| else 0;
    match Triage(e, k, c.overlap)
    case AutoAssociated => Result(c.feed, c.overlap, AutoAssociated, 0, true)
    case Discarded => Result(c.feed, c.overlap, Discarded, 0, false)
    case Judged =>
      var score := match judge(|Asked(e, cands[..i])|) case Some(s) => s case None => 0;
      Result(c.feed, c.overlap, Judged, score, score >= e.threshold)
  }

  /** Every keyword list decodes and the judger answers every call made. */
  ghost predicate Succeeds(e: Evaluator, cands: seq<Candidate>, judge: nat -> Option<int>) {
    && (forall i :: 0 <= i < |cands| ==> cands[i].keywords.Some?)
    && (forall n :: 0 <= n < |Asked(e, cands)| ==> judge(n).Some?)
  }

  function Results(e: Evaluator, cands: seq<Candidate>, judge: nat -> Option<int>): seq<Result> {
    seq(|cands|, i requires 0 <= i < |cands| => ResultAt(e, cands, judge, i))
  }

  /** They are the borderline ones and no others, each once, in order. */
  lemma {:induction false} AskedFacts(e: Evaluator, cands: seq<Candidate>)
    ensures forall i :: i in Asked(e, cands) <==> 0 <= i < |cands| && Borderline(e, cands[i])
    ensures forall m, n :: 0 <= m < n < |Asked(e, cands)| ==> Asked(e, cands)[m] < Asked(e, cands)[n]
  {
    if cands == [] {
    } else {
      var n := |cands| - 1;
      AskedFacts(e, cands[..n]);
      assert forall m :: 0 <= m < |Asked(e, cands[..n])| ==> Asked(e, cands[..n])[m] in Asked(e, cands[..n]);
    }
  }

  lemma {:induction false} AskedGrows(e: Evaluator, cands: seq<Candidate>, i: nat)
    requires i <= |cands|
    ensures |Asked(e, cands[..i])| <= |Asked(e, cands)|
  {
    if i == |cands| {
      assert cands[..i] == cands;
    } else {
      assert cands[..|cands| - 1][..i] == cands[..i];
      AskedGrows(e, cands[..|cands| - 1], i);
    }
  }

  lemma AskedStep(e: Evaluator, cands: seq<Candidate>, i: nat)
    requires i < |cands|
    ensures Asked(e, cands[..i + 1]) == Asked(e, cands[..i]) + if Borderline(e, cands[i]) then [i] else []
  {
    assert cands[..i + 1][..i] == cands[..i];
  }

  lemma RatioReached(overlap: nat, k: nat, ratio: real)
    requires k > 0
    ensures overlap as real / k as real >= ratio <==> overlap as real >= ratio * k as real
  {
    var x := overlap as real / k as real;
    assert x * k as real == overlap as real;
    if x >= ratio {
      assert (x - ratio) * k as real >= 0.0;
    } else {
      assert (ratio - x) * k as real > 0.0;
    }
  }

  /** The feed's keywords and the overlap reach the ratio. */
  predicate Reaches(e: Evaluator, c: Candidate) {
    c.keywords.Some? && |c.keywords.value| > 0 && c.overlap as real >= e.ratio * |c.keywords.value| as real
  }

  /** The ratio decides first, the minimum next, the judger last. */
  lemma TriageMeans(e: Evaluator, c: Candidate)
    requires c.keywords.Some?
    ensures Triage(e, |c.keywords.value|, c.overlap)
         == if Reaches(e, c) then AutoAssociated else if c.overlap < e.minMatches then Discarded else Judged
  {
    if |c.keywords.value| > 0 {
      RatioReached(c.overlap, |c.keywords.value|, e.ratio);
    }
  }

  /** The judger was asked about the i-th candidate, and answered score. */
  ghost predicate Scored(asked: seq<nat>, judge: nat -> Option<int>, i: nat, score: int) {
    exists n: nat :: n < |asked| && asked[n] == i && judge(n) == Some(score)
  }

  /** The right result for the i-th candidate. */
  ghost predicate Decided(e: Evaluator, cands: seq<Candidate>, asked: seq<nat>, judge: nat -> Option<int>, i: nat,
                          r: Result)
    requires i < |cands|
  {
    var c := cands[i];
    && r.feed == c.feed && r.overlap == c.overlap
    && (Reaches(e, c) ==> r.decision == AutoAssociated && r.passed)
    && (!Reaches(e, c) && c.overlap < e.minMatches ==> r.decision == Discarded && !r.passed)
    && (!Reaches(e, c) && c.overlap >= e.minMatches ==>
          r.decision == Judged && Scored(asked, judge, i, r.score) && (r.passed <==> r.score >= e.threshold))
  }

  /** A borderline candidate is asked about in its turn. */
  lemma {:induction false} AskedInTurn(e: Evaluator, cands: seq<Candidate>, i: nat)
    requires i < |cands| && Borderline(e, cands[i])
    ensures |Asked(e, cands[..i])| < |Asked(e, cands)| && Asked(e, cands)[|Asked(e, cands[..i])|] == i
  {
    var n := |cands| - 1;
    if i == n {
    } else {
      AskedInTurn(e, cands[..n], i);
      assert cands[..n][..i] == cands[..i];
    }
  }

  lemma ResultDecided(e: Evaluator, cands: seq<Candidate>, judge: nat -> Option<int>, i: nat)
    requires i < |cands| && Succeeds(e, cands, judge)
    ensures Decided(e, cands, Asked(e, cands), judge, i, ResultAt(e, cands, judge, i))
  {
    TriageMeans(e, cands[i]);
    if Borderline(e, cands[i]) {
      AskedInTurn(e, cands, i);
      var n := |Asked(e, cands[..i])|;
      assert judge(n).Some?;
      assert judge(n) == Some(ResultAt(e, cands, judge, i).score);
    }
  }

  /** The judger is asked about exactly those that neither reach the ratio nor fall below the minimum. */
  lemma AskedExactly(e: Evaluator, cands: seq<Candidate>, i: nat)
    ensures i in Asked(e, cands) <==>
      i < |cands| && cands[i].keywords.Some? && !Reaches(e, cands[i]) && cands[i].overlap >= e.minMatches
  {
    AskedFacts(e, cands);
    if i < |cands| && cands[i].keywords.Some? {
      TriageMeans(e, cands[i]);
    }
  }

  /** Evaluation succeeds exactly when every keyword list decodes and every question is answered. */
  lemma SucceedsExactly(e: Evaluator, cands: seq<Candidate>, judge: nat -> Option<int>)
    ensures Succeeds(e, cands, judge) <==>
      && (forall i :: 0 <= i < |cands| ==> cands[i].keywords.Some?)
      && (forall n: nat :: n < |Asked(e, cands)| ==> judge(n).Some?)
  {
  }

  /** The i-th candidate reaches the ratio, or the judger scored it at the threshold. */
  ghost predicate Deserves(e: Evaluator, cands: seq<Candidate>, judge: nat -> Option<int>, i: nat)
    requires i < |cands|
  {
    Reaches(e, cands[i]) || exists score :: Scored(Asked(e, cands), judge, i, score) && score >= e.threshold
  }

  lemma PassedExactly(e: Evaluator, cands: seq<Candidate>, judge: nat -> Option<int>, i: nat)
    requires i < |cands| && Succeeds(e, cands, judge)
    ensures ResultAt(e, cands, judge, i).passed <==> Deserves(e, cands, judge, i)
  {
    ResultDecided(e, cands, judge, i);
    AskedExactly(e, cands, i);
    AskedFacts(e, cands);
    if score :| Scored(Asked(e, cands), judge, i, score) {
      assert i in Asked(e, cands);
    }
  }

  /** Evaluate: one result per candidate, in order, or nothing at the first error. asked lists the
      candidates the judger was called on, up to where it stopped. */
  method Evaluate(e: Evaluator, cands: seq<Candidate>, judge: nat -> Option<int>)
    returns (results: Option<seq<Result>>, asked: seq<nat>)
    ensures results == if Succeeds(e, cands, judge) then Some(Results(e, cands, judge)) else None
    ensures exists stop :: 0 <= stop <= |cands| && asked == Asked(e, cands[..stop])
    ensures results.Some? ==> asked == Asked(e, cands)
    ensures results.Some? ==> |results.value| == |cands|
    ensures results.Some? ==> forall i :: 0 <= i < |cands| ==> Decided(e, cands, asked, judge, i, results.value[i])
  {
    var out: seq<Result> := [];
    asked := [];
    for i := 0 to |cands|
      invariant |out| == i && forall j :: 0 <= j < i ==> out[j] == ResultAt(e, cands, judge, j)
      invariant forall j :: 0 <= j < i ==> cands[j].keywords.Some?
      invariant asked == Asked(e, cands[..i]) && forall n :: 0 <= n < |asked| ==> judge(n).Some?
    {
      var c := cands[i];
      AskedStep(e, cands, i);
      if c.keywords.None? {
        return None, asked;
      }
      var k := |c.keywords.value|;
      if k > 0 && c.overlap as real / k as real >= e.ratio {
        out := out + [Result(c.feed, c.overlap, AutoAssociated, 0, true)];
      } else if c.overlap < e.minMatches {
        out := out + [Result(c.feed, c.overlap, Discarded, 0, false)];
      } else {
        var answer := judge(|asked|);
        asked := asked + [i];
        if answer.None? {
          AskedGrows(e, cands, i + 1);
          return None, asked;
        }
        out := out + [Result(c.feed, c.overlap, Judged, answer.value, answer.value >= e.threshold)];
      }
    }
    assert cands[..|cands|] == cands;
    assert out == Results(e, cands, judge);
    forall i | 0 <= i < |cands| ensures Decided(e, cands, asked, judge, i, out[i]) {
      ResultDecided(e, cands, judge, i);
    }
    results := Some(out);
  }

  // ---------------------------------------------------------------- coherence of the two thresholds

  /** No feed of admissible size is associated without the judger on an overlap the discard rule is
      meant to drop. */
  ghost predicate Coherent(e: Evaluator) {
    forall k: nat, overlap: nat :: FEED_KEYWORDS_MIN <= k && overlap <= k && overlap < e.minMatches ==>
      Triage(e, k, overlap) == Discarded
  }

  function LargestTrivialOverlap(e: Evaluator): int {
    if e.minMatches - 1 < FEED_KEYWORDS_MIN then e.minMatches - 1 else FEED_KEYWORDS_MIN
  }

  lemma BelowRatio(overlap: nat, k: nat, ratio: real)
    requires k > 0 && overlap as real < ratio * k as real
    ensures !(overlap as real / k as real >= ratio)
  {
    RatioReached(overlap, k, ratio);
  }

  lemma Times(x: real, y: real)
    requires x >= 0.0 && y >= 0.0
    ensures x * y >= 0.0
  {
  }

  /** Fewer shared than the ratio asks of the least size: also fewer than it asks of a larger one. */
  lemma FewShared(ratio: real, least: real, size: real, shared: real)
    requires 0.0 < least <= size && 0.0 <= shared < ratio * least
    ensures shared < ratio * size
  {
    if ratio < 0.0 {
      Times(-ratio, least);
    } else {
      Times(ratio, size - least);
      assert ratio * (size - least) == ratio * size - ratio * least;
    }
  }

  /** A ratio above one is never reached. */
  lemma AllShared(ratio: real, least: real, size: real, shared: real)
    requires 0.0 < least <= size && least < ratio * least && shared <= size
    ensures shared < ratio * size
  {
    assert (1.0 - ratio) * least == least - ratio * least;
    if ratio <= 1.0 {
      Times(1.0 - ratio, least);
    }
    assert (ratio - 1.0) * size > 0.0;
    assert (ratio - 1.0) * size == ratio * size - size;
  }

  lemma Discards(e: Evaluator, k: nat, overlap: nat)
    requires e.ratio * FEED_KEYWORDS_MIN as real > LargestTrivialOverlap(e) as real
    requires FEED_KEYWORDS_MIN <= k && overlap <= k && overlap < e.minMatches
    ensures Triage(e, k, overlap) == Discarded
  {
    if e.minMatches - 1 < FEED_KEYWORDS_MIN {
      FewShared(e.ratio, FEED_KEYWORDS_MIN as real, k as real, overlap as real);
    } else {
      AllShared(e.ratio, FEED_KEYWORDS_MIN as real, k as real, overlap as real);
    }
    BelowRatio(overlap, k, e.ratio);
  }

  /** The thresholds are coherent exactly when the ratio on the smallest feed lies strictly above the
      largest overlap that should be discarded. */
  lemma CoherentExactly(e: Evaluator)
    ensures Coherent(e) <==> e.minMatches <= 0 || e.ratio * FEED_KEYWORDS_MIN as real > LargestTrivialOverlap(e) as real
  {
    if e.minMatches > 0 {
      if e.ratio * FEED_KEYWORDS_MIN as real > LargestTrivialOverlap(e) as real {
        forall k: nat, overlap: nat | FEED_KEYWORDS_MIN <= k && overlap <= k && overlap < e.minMatches
          ensures Triage(e, k, overlap) == Discarded
        {
          Discards(e, k, overlap);
        }
      } else {
        var o: nat := LargestTrivialOverlap(e);
        RatioReached(o, FEED_KEYWORDS_MIN, e.ratio);
        assert Triage(e, FEED_KEYWORDS_MIN, o) == AutoAssociated;
      }
    }
  }

  /** The inequality as documented, strict: enough for coherence whatever the minimum is. */
  lemma StrictInequalityIsEnough(e: Evaluator)
    requires e.ratio * FEED_KEYWORDS_MIN as real > (e.minMatches - 1) as real
    ensures Coherent(e)
  {
    CoherentExactly(e);
  }

  /** At equality, which the documented form still allows, a single shared keyword associates: the
      documentation's own example of a broken configuration. */
  lemma EqualityIsNotEnough()
    ensures var e := Evaluator(70, 0.20, 2);
      && e.ratio * FEED_KEYWORDS_MIN as real >= (e.minMatches - 1) as real
      && !Coherent(e) && Triage(e, 5, 1) == AutoAssociated
  {
    var e := Evaluator(70, 0.20, 2);
    RatioReached(1, 5, 0.20);
    assert Triage(e, 5, 1) == AutoAssociated;
    CoherentExactly(e);
  }

  function Rank(d: Decision): nat {
    match d case Discarded => 0 case Judged => 1 case AutoAssociated => 2
  }

  /** In any configuration, more overlap never lowers the decision. */
  lemma TriageMonotone(e: Evaluator, k: nat, less: nat, more: nat)
    requires less <= more
    ensures Rank(Triage(e, k, less)) <= Rank(Triage(e, k, more))
  {
    if k > 0 {
      RatioReached(less, k, e.ratio);
      RatioReached(more, k, e.ratio);
    }
  }
}
