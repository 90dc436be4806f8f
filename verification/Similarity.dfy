/** What each kind of similarity measures, whatever the order of the lists and maps behind it. */
module Similarity {
  import opened Rows
  import opened Compat
  import opened Ranking

  // ----- shared over all ------------------------------------------------------

  lemma RatioBounds(part: nat, whole: nat)
    requires part <= whole && 0 < whole
    ensures 0.0 <= Ratio(part, whole) <= 1.0
    ensures Ratio(part, whole) == 0.0 <==> part == 0
    ensures Ratio(part, whole) == 1.0 <==> part == whole
  {
  }

  predicate HasWord(b: seq<string>, v: string) { exists w :: w in b && Lower(w) == Lower(v) }

  /** Every word of `a` is in `b` in some case. */
  predicate HasWords(a: seq<string>, b: seq<string>) { forall v :: v in a ==> HasWord(b, v) }

  /** Lists of words that differ only in case, order and repetition. */
  predicate SameWords(a: seq<string>, b: seq<string>) { HasWords(a, b) && HasWords(b, a) }

  lemma WordsAreLowerSets(a: seq<string>, b: seq<string>)
    ensures HasWords(a, b) <==> LowerSet(a) <= LowerSet(b)
    ensures LowerSet(a) * LowerSet(b) == {} <==> forall v :: v in a ==> !HasWord(b, v)
  {
    forall v | v in a ensures HasWord(b, v) <==> Lower(v) in LowerSet(b) {}
    if LowerSet(a) <= LowerSet(b) {
      forall v | v in a ensures HasWord(b, v) { assert Lower(v) in LowerSet(a); }
    }
    if LowerSet(a) * LowerSet(b) == {} {
      forall v | v in a ensures !HasWord(b, v) {
        assert Lower(v) in LowerSet(a);
        assert Lower(v) !in LowerSet(a) * LowerSet(b);
      }
    }
  }

  lemma SharedSizes<T>(a: set<T>, b: set<T>)
    ensures |a * b| <= |a + b|
    ensures |a * b| == |a + b| <==> a == b
    ensures |a * b| == 0 <==> a * b == {}
  {
    assert a + b == (a * b) + ((a + b) - (a * b));
    assert |a + b| == |a * b| + |(a + b) - (a * b)|;
    if a != b {
      assert exists x :: x in (a + b) - (a * b);
    }
  }

  lemma JaccardOfSets(a: seq<string>, b: seq<string>)
    ensures var left, right := LowerSet(a), LowerSet(b);
            if a == [] && b == [] then Jaccard(a, b) == 0.7
            else
              && left + right != {} && Jaccard(a, b) == Ratio(|left * right|, |left + right|)
              && 0.0 <= Jaccard(a, b) <= 1.0
              && (Jaccard(a, b) == 1.0 <==> left == right) && (Jaccard(a, b) == 0.0 <==> left * right == {})
  {
    var left, right := LowerSet(a), LowerSet(b);
    assert a != [] ==> Lower(a[0]) in left;
    assert b != [] ==> Lower(b[0]) in right;
    if a != [] || b != [] {
      SharedSizes(left, right);
      RatioBounds(|left * right|, |left + right|);
    }
  }

  lemma JaccardIsMutual(a: seq<string>, b: seq<string>)
    ensures Jaccard(a, b) == Jaccard(b, a)
  {
    assert LowerSet(a) * LowerSet(b) == LowerSet(b) * LowerSet(a);
    assert LowerSet(a) + LowerSet(b) == LowerSet(b) + LowerSet(a);
  }

  lemma WordsShared(a: seq<string>, b: seq<string>)
    ensures SameWords(a, b) <==> LowerSet(a) == LowerSet(b)
    ensures (forall v :: v in a ==> !HasWord(b, v)) <==> LowerSet(a) * LowerSet(b) == {}
  {
    WordsAreLowerSets(a, b);
    WordsAreLowerSets(b, a);
  }

  /** Two empty lists are neutral. Otherwise the measure lies between 0, for lists that share no
      word, and 1, for the same words, and it is the same both ways. */
  lemma JaccardMeasures(a: seq<string>, b: seq<string>)
    ensures Jaccard(a, b) == Jaccard(b, a)
    ensures a == [] && b == [] ==> Jaccard(a, b) == 0.7
    ensures a != [] || b != [] ==>
      && 0.0 <= Jaccard(a, b) <= 1.0
      && (Jaccard(a, b) == 1.0 <==> SameWords(a, b))
      && (Jaccard(a, b) == 0.0 <==> forall v :: v in a ==> !HasWord(b, v))
  {
    JaccardIsMutual(a, b);
    JaccardOfSets(a, b);
    WordsShared(a, b);
  }

  // ----- answers --------------------------------------------------------------

  /** The last answer to a question is one nobody answered over. */
  lemma {:induction false} LastAnswerIsLast(answers: seq<AnswerTo>, q: string)
    ensures LastAnswer(answers, q).None? <==> forall i :: 0 <= i < |answers| ==> answers[i].question != q
    ensures LastAnswer(answers, q).Some? ==>
      exists i :: 0 <= i < |answers| && answers[i] == AnswerTo(q, LastAnswer(answers, q).value)
        && forall j :: i < j < |answers| ==> answers[j].question != q
  {
    if |answers| > 0 {
      var init, last := answers[..|answers| - 1], answers[|answers| - 1];
      LastAnswerIsLast(init, q);
      if last.question == q {
        assert answers[|answers| - 1] == AnswerTo(q, LastAnswer(answers, q).value);
      } else if LastAnswer(init, q).Some? {
        var i :| 0 <= i < |init| && init[i] == AnswerTo(q, LastAnswer(init, q).value)
          && forall j :: i < j < |init| ==> init[j].question != q;
        assert answers[i] == init[i];
      }
    }
  }

  /** The other person answered this question. */
  predicate Asked(b: seq<AnswerTo>, x: AnswerTo) { LastAnswer(b, x.question).Some? }

  predicate AnsweredAlike(b: seq<AnswerTo>, x: AnswerTo) { LastAnswer(b, x.question) == Some(x.answer) }

  predicate NoneAsked(a: seq<AnswerTo>, b: seq<AnswerTo>) { forall x :: x in a ==> !Asked(b, x) }
  predicate NoneAlike(a: seq<AnswerTo>, b: seq<AnswerTo>) { forall x :: x in a ==> !AnsweredAlike(b, x) }
  predicate AllAlike(a: seq<AnswerTo>, b: seq<AnswerTo>) { forall x :: x in a && Asked(b, x) ==> AnsweredAlike(b, x) }

  lemma OneMoreAnswer(a: seq<AnswerTo>, b: seq<AnswerTo>)
    requires |a| > 0
    ensures var init, last := a[..|a| - 1], a[|a| - 1];
            && (NoneAsked(a, b) <==> NoneAsked(init, b) && !Asked(b, last))
            && (NoneAlike(a, b) <==> NoneAlike(init, b) && !AnsweredAlike(b, last))
            && (AllAlike(a, b) <==> AllAlike(init, b) && (Asked(b, last) ==> AnsweredAlike(b, last)))
  {
    forall x { InFront(a, x); }
  }

  lemma {:induction false} CountsMean(a: seq<AnswerTo>, b: seq<AnswerTo>)
    ensures Same(a, b) <= Compared(a, b)
    ensures Compared(a, b) == 0 <==> NoneAsked(a, b)
    ensures Same(a, b) == 0 <==> NoneAlike(a, b)
    ensures Same(a, b) == Compared(a, b) <==> AllAlike(a, b)
  {
    if |a| > 0 {
      CountsMean(a[..|a| - 1], b);
      OneMoreAnswer(a, b);
    }
  }

  /** Without a question both answered the measure is neutral. Otherwise it runs from 0.45, no
      answer alike, to 1, all of them alike. */
  lemma OverlapMeasures(a: seq<AnswerTo>, b: seq<AnswerTo>)
    ensures NoneAsked(a, b) ==> AnswerOverlap(a, b) == 0.7
    ensures !NoneAsked(a, b) ==>
      && 0.45 <= AnswerOverlap(a, b) <= 1.0
      && (AnswerOverlap(a, b) == 0.45 <==> NoneAlike(a, b))
      && (AnswerOverlap(a, b) == 1.0 <==> AllAlike(a, b))
  {
    CountsMean(a, b);
    if Compared(a, b) > 0 { RatioBounds(Same(a, b), Compared(a, b)); }
  }

  // ----- the scores made of them ----------------------------------------------

  lemma ScoreOfWhole(k: int)
    requires 0 <= k <= 100
    ensures ToScore(k as real / 100.0) == k
  {
  }

  /** Nothing to compare scores 70, the same interests 100, none shared 0. */
  lemma InterestMeasures(a: Profile, b: Profile)
    ensures a.interests == [] && b.interests == [] ==> Interest(a, b) == 70
    ensures Interest(a, b) == Interest(b, a)
    ensures a.interests != [] && SameWords(a.interests, b.interests) ==> Interest(a, b) == 100
    ensures a.interests != [] && (forall v :: v in a.interests ==> !HasWord(b.interests, v)) ==> Interest(a, b) == 0
  {
    JaccardMeasures(a.interests, b.interests);
    ScoreOfWhole(70);
    ScoreOfWhole(100);
    ScoreOfWhole(0);
  }

  lemma MixKeepsOrder(a: real, b: real, c: real, d: real)
    requires a <= c && b <= d
    ensures ToScore(a * 0.55 + b * 0.45) <= ToScore(c * 0.55 + d * 0.45)
  {
    RoundKeepsOrder((a * 0.55 + b * 0.45) * 100.0, (c * 0.55 + d * 0.45) * 100.0);
  }

  /** No trait of the one is the other's. */
  predicate NoTrait(a: Profile, b: Profile) { forall v :: v in a.traits ==> !HasWord(b.traits, v) }

  /** Nothing to compare scores 70; the same traits and answers 100; neither any trait nor any
      answer alike 20, as answers at least 45 in a hundred alike. */
  lemma PersonalityMeasures(a: Profile, b: Profile)
    ensures a.traits == [] && b.traits == [] && NoneAsked(a.answers, b.answers) ==> Personality(a, b) == 70
    ensures a.traits != [] && !NoneAsked(a.answers, b.answers) ==>
      && (SameWords(a.traits, b.traits) && AllAlike(a.answers, b.answers) ==> Personality(a, b) == 100)
      && (NoTrait(a, b) && NoneAlike(a.answers, b.answers) ==> Personality(a, b) == 20)
  {
    JaccardMeasures(a.traits, b.traits);
    OverlapMeasures(a.answers, b.answers);
    ScoreOfWhole(70);
    ScoreOfWhole(100);
  }

  /** More traits shared and more answers alike never score less. */
  lemma PersonalityKeepsOrder(a: Profile, b: Profile, c: Profile)
    requires Jaccard(a.traits, b.traits) <= Jaccard(a.traits, c.traits)
    requires AnswerOverlap(a.answers, b.answers) <= AnswerOverlap(a.answers, c.answers)
    ensures Personality(a, b) <= Personality(a, c)
  {
    MixKeepsOrder(Jaccard(a.traits, b.traits), AnswerOverlap(a.answers, b.answers),
                  Jaccard(a.traits, c.traits), AnswerOverlap(a.answers, c.answers));
  }

  /** Both keep this habit alike. */
  predicate HabitAlike(a: Profile, b: Profile, k: Habit) {
    k in a.habits && SoftMatch(a.habits[k], HabitIn(b.habits, k))
  }

  lemma MatchingSizes(a: Profile, b: Profile)
    ensures |Matching(a.habits, b.habits)| <= |a.habits|
    ensures |Matching(a.habits, b.habits)| == 0 <==> forall k :: k in a.habits ==> !HabitAlike(a, b, k)
    ensures |Matching(a.habits, b.habits)| == |a.habits| <==> forall k :: k in a.habits ==> HabitAlike(a, b, k)
  {
    var all, some := a.habits.Keys, Matching(a.habits, b.habits);
    assert |all| == |a.habits| && some <= all && |all| == |some| + |all - some|;
    forall k | k in a.habits ensures k in some <==> HabitAlike(a, b, k) { MatchingHas(a.habits, b.habits, k); }
    if |all - some| == 0 { assert all - some == {}; }
    if forall k :: k in a.habits ==> HabitAlike(a, b, k) { assert all - some == {}; }
    if forall k :: k in a.habits ==> !HabitAlike(a, b, k) { assert some == {}; }
  }

  /** All habits alike score 100 and none 0, unstated ones 70; a shared language adds 8 below 100. */
  lemma LifestyleMeasures(a: Profile, b: Profile)
    ensures var bonus := if SharesAny(a.languages, b.languages) then 8 else 0;
            && (|a.habits| == 0 ==> Lifestyle(a, b) == 70 + bonus)
            && (|a.habits| > 0 && (forall k :: k in a.habits ==> HabitAlike(a, b, k)) ==> Lifestyle(a, b) == 100)
            && (|a.habits| > 0 && (forall k :: k in a.habits ==> !HabitAlike(a, b, k)) ==> Lifestyle(a, b) == bonus)
  {
    MatchingSizes(a, b);
    if |a.habits| > 0 { RatioBounds(|Matching(a.habits, b.habits)|, |a.habits|); }
    ScoreOfWhole(70);
    ScoreOfWhole(78);
    ScoreOfWhole(100);
    ScoreOfWhole(8);
    ScoreOfWhole(0);
  }

  // ----- habits, intents and interests ----------------------------------------

  /** A habit matches itself in any case, and matching goes both ways. */
  lemma SoftMatchIsMutual(a: string, b: string)
    ensures SoftMatch(a, b) <==> SoftMatch(b, a)
    ensures Lower(a) == Lower(b) ==> SoftMatch(a, b)
  {
  }

  /** How two people's styles suit each other does not depend on who looks. */
  lemma StylesSuitMutually(a: Comms, b: Comms)
    ensures a in Suits(b) <==> b in Suits(a)
  {
  }

  /** How their intents do depends on it for one pair alone: to somebody looking for something
      casual "not sure" is near, but not the other way round. */
  lemma IntentsAreNearMutuallyIff(a: Intent, b: Intent)
    ensures (a in Neighbors(b) <==> b in Neighbors(a)) <==> {a, b} != {Casual, NotSure}
  {
    if {a, b} == {Casual, NotSure} {
      assert a in {Casual, NotSure} && b in {Casual, NotSure};
      assert Casual in {a, b} && NotSure in {a, b};
    }
    if (a == Casual && b == NotSure) || (a == NotSure && b == Casual) { assert {a, b} == {Casual, NotSure}; }
  }

  /** Each interest is in common as often as the viewer lists it, if the candidate does at all. */
  lemma {:induction false} CommonCounts(a: seq<string>, b: seq<string>, v: string)
    ensures multiset(Common(a, b))[v] == if v in b then multiset(a)[v] else 0
  {
    if |a| > 0 {
      CommonCounts(a[..|a| - 1], b, v);
      assert a == a[..|a| - 1] + [a[|a| - 1]];
    }
  }
}
