/** The `while True` loop of `HeaderExtractor.extract` as written, round by
    round. A round runs the first pass while no profile is set and the
    second pass once it is; the loop leaves only through a non-empty second
    pass or an empty first pass. When the first pass finds headers that the
    profile does not confirm, the state after the first round is a fixed
    point and the loop never ends. */
module HeaderLoop {
  import opened Text
  import opened Lists
  import opened Keywords
  import opened LineBuilder
  import opened HeaderMerge
  import opened HeaderClassifier

  /** `target_*` (None until the first round ends), `detected_headers` and
      `final_headers`. */
  datatype LoopState = LoopState(target: Option<Profile>, detected: seq<Line>, final: seq<Line>)

  datatype Round = Returns(result: Extraction) | Continues(next: LoopState)

  const Start := LoopState(None, [], [])

  /** One iteration of the loop over the merged lines. */
  function SourceRound(merged: seq<Line>, body: int, st: LoopState): Round {
    var detected := if st.target.None? then CollectOnto(st.detected, merged, Candidates(body))
                    else st.detected;
    var final := if st.target.Some? then CollectOnto(st.final, merged, Matching(st.target.value))
                 else st.final;
    if final != [] then Returns(Extraction(final, body, Mean(Heights(final))))
    else if detected != [] then Continues(LoopState(Some(ProfileOf(detected)), detected, final))
    else Returns(Extraction([], body, 0.0))
  }

  /** The outcome of a loop with body `step` after at most `n + 1`
      iterations from `st`. */
  function Runs(step: LoopState -> Round, st: LoopState, n: nat): Round
    decreases n
  {
    match step(st)
    case Returns(e) => Returns(e)
    case Continues(next) => if n == 0 then Continues(next) else Runs(step, next, n - 1)
  }

  /** The loop of `extract` over the merged lines. */
  function SourceRuns(merged: seq<Line>, body: int, st: LoopState, n: nat): Round {
    Runs(st' => SourceRound(merged, body, st'), st, n)
  }

  /** A loop whose body leaves a state unchanged never returns from it. */
  lemma {:induction false} RunsStalled(step: LoopState -> Round, st: LoopState, n: nat)
    requires step(st) == Continues(st)
    ensures Runs(step, st, n) == Continues(st)
  {
    if n > 0 {
      RunsStalled(step, st, n - 1);
    }
  }

  /** The state after a first round that found headers, when the profile
      confirms none of them, is left unchanged by the next round. */
  lemma SourceStalls(merged: seq<Line>, body: int, st: LoopState)
    requires st.detected != [] && st.final == []
    requires st.target == Some(ProfileOf(st.detected))
    requires Collect(merged, Matching(st.target.value)) == []
    ensures SourceRound(merged, body, st) == Continues(st)
  {
  }

  /** The first iteration runs the first pass alone. */
  lemma SourceFirstRound(merged: seq<Line>, body: int)
    ensures var cands := Collect(merged, Candidates(body));
      SourceRound(merged, body, Start) ==
        if cands == [] then Returns(Extraction([], body, 0.0))
        else Continues(LoopState(Some(ProfileOf(cands)), cands, []))
  {
  }

  /** When the first pass finds headers and the profile confirms no line,
      the loop has not returned after any number of iterations. */
  lemma SourceHangs(merged: seq<Line>, n: nat)
    requires merged != []
    requires Collect(merged, Candidates(BodySize(merged))) != []
    requires Collect(merged, Matching(ProfileOf(Collect(merged, Candidates(BodySize(merged)))))) == []
    ensures SourceRuns(merged, BodySize(merged), Start, n).Continues?
  {
    var body := BodySize(merged);
    var cands := Collect(merged, Candidates(body));
    var st := LoopState(Some(ProfileOf(cands)), cands, []);
    var step := st' => SourceRound(merged, body, st');
    assert step(Start) == Continues(st) by {
      SourceFirstRound(merged, body);
    }
    assert step(st) == Continues(st) by {
      SourceStalls(merged, body, st);
    }
    RunsFromStall(step, st, n);
  }

  /** A loop whose first iteration reaches a fixed point never returns. */
  lemma RunsFromStall(step: LoopState -> Round, st: LoopState, n: nat)
    requires step(Start) == Continues(st)
    requires step(st) == Continues(st)
    ensures Runs(step, Start, n).Continues?
  {
    if n > 0 {
      RunsStalled(step, st, n - 1);
    }
  }

  /** A loop whose body returns at once returns what the body returns. */
  lemma RunsReturns(step: LoopState -> Round, st: LoopState, n: nat)
    requires step(st).Returns?
    ensures Runs(step, st, n) == step(st)
  {
  }

  /** Whenever the loop as written returns, it returns what the two-pass
      classification returns. */
  lemma SourceAgrees(lines: seq<Line>, n: nat)
    requires Merged(lines) != []
    ensures var merged := Merged(lines);
      var r := SourceRuns(merged, BodySize(merged), Start, n);
      r.Returns? ==> r.result == Classify(lines)
  {
    var merged := Merged(lines);
    var body := BodySize(merged);
    var cands := Collect(merged, Candidates(body));
    var step := st' => SourceRound(merged, body, st');
    assert SourceRuns(merged, body, Start, n) == Runs(step, Start, n);
    SourceFirstRound(merged, body);
    if cands == [] {
      RunsReturns(step, Start, n);
    } else {
      var confirmed := Collect(merged, Matching(ProfileOf(cands)));
      if confirmed == [] {
        SourceHangs(merged, n);
      } else if n > 0 {
        var st := LoopState(Some(ProfileOf(cands)), cands, []);
        assert step(Start) == Continues(st);
        assert step(st) == Returns(Extraction(confirmed, body, Mean(Heights(confirmed))));
        RunsReturns(step, st, n - 1);
        assert Runs(step, Start, n) == Runs(step, st, n - 1);
      }
    }
  }

  // ---------------------------------------------------------------------
  // A document on which the loop as written never ends

  /** A one-word title that contains "skills" but is longer than every
      keyword; `k` tells the titles apart. */
  function Title(k: nat): string { "skills" + seq(20 + k, i => 'x') }

  function ShoutedTitle(k: nat): string { "SKILLS" + seq(20 + k, i => 'X') }

  function StallingLine(k: nat): Line {
    Line(ShoutedTitle(k), Title(k), StallingSize(k), k == 0 || k == 2, true, false,
         20.0 * k as real, "Arial", 10.0)
  }

  function StallingSize(k: nat): real {
    if k == 1 then 140.0 else if k == 3 then 160.0 else if k == 4 then 180.0 else 120.0
  }

  /** Five upper-case lines in one font that each contain "skills" without
      being a keyword: sizes 12, 14, 12, 16 and 18 points, only the first and
      third bold. The body size is 12 pt, every line is a first-pass header,
      and the profile becomes (12 pt, not bold, upper case): the two 12 pt
      lines are bold and the others are too large, so none is confirmed. */
  function StallingLines(): seq<Line> {
    seq(5, k requires 0 <= k < 5 => StallingLine(k))
  }

  lemma TitleFacts(k: nat)
    ensures var c := Title(k);
      WordCount(c) <= 10 && !IsKeyword(c) && !IsSpacelessKeyword(RemoveSpaces(c)) && HasKeywordPart(c)
  {
    var c := Title(k);
    assert c[..6] == "skills";
    SkillsOnlyPartly(c);
  }

  lemma StallingSizes()
    ensures RoundedSizes(StallingLines()) == [120, 140, 120, 160, 180]
  {
  }

  lemma StallingBodySize()
    ensures BodySize(StallingLines()) == 120
  {
    var sizes := RoundedSizes(StallingLines());
    StallingSizes();
    assert Count(sizes, 120) == 2;
    assert forall j :: 0 <= j < 5 ==> sizes[j] == 120 || Count(sizes, sizes[j]) == 1;
    MostCommonIs(sizes, 0);
  }

  lemma StallingBold(ls: seq<Line>)
    requires ls == StallingLines()
    ensures !MostCommon(BoldFlags(ls))
  {
    var bold := BoldFlags(ls);
    assert bold == [true, false, true, false, false] by {
      StallingBoldFlags(ls);
    }
    assert Count(bold, false) == 3 && Count(bold, true) == 2;
    MostCommonIs(bold, 1);
  }

  lemma StallingBoldFlags(ls: seq<Line>)
    requires ls == StallingLines()
    ensures BoldFlags(ls) == [true, false, true, false, false]
  {
  }

  /** The profile of the five lines is 12 pt, not bold. */
  lemma StallingProfile(ls: seq<Line>)
    requires ls == StallingLines()
    ensures ProfileOf(ls).size == 120
    ensures !ProfileOf(ls).isBold
  {
    assert MostCommon(RoundedSizes(ls)) == 120 by { StallingBodySize(); }
    StallingBold(ls);
  }

  lemma StallingUnmerged(ls: seq<Line>)
    requires ls == StallingLines()
    ensures Merged(ls) == ls
  {
    assert !HasMergeablePair(ls);
    MergedLength(ls);
  }

  /** Every one of the five lines is a first-pass header. */
  lemma StallingCandidates(ls: seq<Line>)
    requires ls == StallingLines()
    ensures Collect(ls, Candidates(120)) == ls
  {
    forall k | 0 <= k < 5 ensures IsCandidate(ls[k], 120) {
      TitleFacts(k);
    }
    CollectAll(ls, Candidates(120));
  }

  /** A 12 pt, non-bold profile confirms none of the five lines: the two
      12 pt lines are bold and the other three are too large. */
  lemma StallingLineUnconfirmed(k: nat, p: Profile)
    requires k < 5 && p.size == 120 && !p.isBold
    ensures !Confirms(StallingLine(k), p)
  {
    TitleFacts(k);
    if k == 0 || k == 2 {
      assert StallingLine(k).isBold;
    } else {
      assert RoundTenth(StallingLine(k).size) >= 140;
    }
  }

  /** The profile confirms none of them. */
  lemma StallingUnconfirmed(ls: seq<Line>)
    requires ls == StallingLines()
    ensures Collect(ls, Matching(ProfileOf(ls))) == []
  {
    var p := ProfileOf(ls);
    StallingProfile(ls);
    forall k | 0 <= k < 5 ensures !Accepts(Matching(p), ls[k]) {
      StallingLineUnconfirmed(k, p);
    }
    CollectEmpty([], ls, Matching(p));
  }

  /** On these lines the loop as written runs forever, while the two-pass
      classification returns all five as headers. */
  lemma StallingExample(ls: seq<Line>, n: nat)
    requires ls == StallingLines()
    ensures Merged(ls) == ls
    ensures BodySize(ls) == 120
    ensures SourceRuns(ls, 120, Start, n).Continues?
    ensures Classify(ls).headers == ls
  {
    StallingUnmerged(ls);
    StallingBodySize();
    StallingCandidates(ls);
    StallingUnconfirmed(ls);
    SourceHangs(ls, n);
    ClassifyHeaders(ls, 120, ls);
  }
}
