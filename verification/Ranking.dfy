/** What the feed shows and whom it puts first, told of the feed itself. */
module Ranking {
  import opened Rows
  import opened Compat

  // ----- who is shown ---------------------------------------------------------

  predicate Shown(out: seq<Ranked>, p: Profile) { exists r :: r in out && r.profile == p }

  /** Asking for nothing asks for anything. */
  predicate Wanted<T(==)>(asked: seq<T>, v: T) { asked == [] || v in asked }

  predicate WantedAny(asked: seq<string>, offered: seq<string>) {
    asked == [] || exists v :: v in asked && v in offered
  }

  predicate Is(asked: Option<string>, v: string) { asked == None || asked == Some(v) }

  /** `part` stands in the text at position `i`, whatever the case of either. */
  predicate StandsAt(text: string, part: string, i: nat) {
    i + |part| <= |text| && forall k :: 0 <= k < |part| ==> LowerChar(text[i + k]) == LowerChar(part[k])
  }

  predicate Says(asked: Option<string>, text: string) {
    asked == None || exists i :: 0 <= i <= |text| && StandsAt(text, asked.value, i)
  }

  predicate AtLeast(low: Option<int>, v: int) { low == None || low.value <= v }
  predicate AtMost(high: Option<int>, v: int) { high == None || v <= high.value }

  lemma StandsIsStarts(text: string, part: string, i: nat)
    requires i <= |text|
    ensures StandsAt(text, part, i) <==> Starts(Lower(text), Lower(part), i)
  {
    if i + |part| <= |text| {
      var found := Lower(text)[i..i + |part|];
      assert forall k :: 0 <= k < |part| ==> found[k] == LowerChar(text[i + k]) && Lower(part)[k] == LowerChar(part[k]);
      if StandsAt(text, part, i) { assert found == Lower(part); }
    }
  }

  lemma SaysIsContainsFold(asked: string, text: string)
    ensures Says(Some(asked), text) <==> ContainsFold(text, asked)
  {
    forall i | 0 <= i <= |text| ensures StandsAt(text, asked, i) <==> Starts(Lower(text), Lower(asked), i) {
      StandsIsStarts(text, asked, i);
    }
    if ContainsFold(text, asked) {
      var i :| 0 <= i <= |Lower(text)| && Starts(Lower(text), Lower(asked), i);
      assert StandsAt(text, asked, i);
    }
  }

  lemma FeedMember(current: Profile, candidates: seq<Profile>, f: Filters, out: seq<Ranked>, r: Ranked)
    requires IsFeed(current, candidates, f, out)
    ensures r in out <==>
      r.profile in candidates && PassesFilters(r.profile, f, current) && r.score == RankScore(current, r.profile)
  {
    ScoreMembers(current, candidates, f, r);
    assert r in multiset(out) <==> r in multiset(Score(current, candidates, f));
  }

  lemma ShownIffPasses(current: Profile, candidates: seq<Profile>, f: Filters, out: seq<Ranked>, p: Profile)
    requires IsFeed(current, candidates, f, out)
    ensures Shown(out, p) <==> p in candidates && PassesFilters(p, f, current)
  {
    FeedMember(current, candidates, f, out, Ranked(p, RankScore(current, p)));
    if Shown(out, p) {
      var r :| r in out && r.profile == p;
      FeedMember(current, candidates, f, out, r);
    }
  }

  lemma TextFilters(p: Profile, f: Filters)
    ensures Says(f.education, p.education) <==> (f.education.Some? ==> ContainsFold(p.education, f.education.value))
    ensures Says(f.occupation, p.occupation) <==>
      (f.occupation.Some? ==> ContainsFold(p.occupation, f.occupation.value))
    ensures Says(f.religion, HabitIn(p.habits, Religion)) <==>
      (f.religion.Some? ==> ContainsFold(HabitIn(p.habits, Religion), f.religion.value))
  {
    if f.education.Some? { SaysIsContainsFold(f.education.value, p.education); }
    if f.occupation.Some? { SaysIsContainsFold(f.occupation.value, p.occupation); }
    if f.religion.Some? { SaysIsContainsFold(f.religion.value, HabitIn(p.habits, Religion)); }
  }

  /** The feed shows exactly the candidates who are not hidden, lie inside every bound and are
      what was asked for. Where no gender was asked for, the viewer's own interest decides, and
      an empty interest means anybody; an unstated height is never out of bounds. */
  lemma FeedShowsWhoWasAskedFor(current: Profile, candidates: seq<Profile>, f: Filters, out: seq<Ranked>, p: Profile)
    requires IsFeed(current, candidates, f, out)
    ensures Shown(out, p) <==>
      && p in candidates && !p.hidden
      && f.minAge <= p.age <= f.maxAge && p.distanceKm <= f.maxDistanceKm as real
      && Wanted(if f.genders == [] then current.interestedIn else f.genders, p.gender)
      && Wanted(f.intents, p.intent)
      && WantedAny(f.interests, p.interests) && WantedAny(f.languages, p.languages)
      && Says(f.education, p.education) && Says(f.occupation, p.occupation)
      && Says(f.religion, HabitIn(p.habits, Religion))
      && Is(f.smoking, HabitIn(p.habits, Smoking)) && Is(f.drinking, HabitIn(p.habits, Drinking))
      && Is(f.children, HabitIn(p.habits, Children))
      && (p.heightCm == None || (AtLeast(f.minHeightCm, p.heightCm.value) && AtMost(f.maxHeightCm, p.heightCm.value)))
  {
    ShownIffPasses(current, candidates, f, out, p);
    TextFilters(p, f);
  }

  // ----- the parts of a score -------------------------------------------------

  lemma RoundKeepsOrder(x: real, y: real)
    requires x <= y
    ensures Round(x) <= Round(y)
  {
  }

  lemma RoundAdds(x: real, k: int)
    requires 0.0 <= x && 0 <= k
    ensures Round(x + k as real) == Round(x) + k
  {
    assert (x + k as real + 0.5).Floor == (x + 0.5).Floor + k;
  }

  lemma ScoreKeepsOrder(x: real, y: real)
    requires x <= y
    ensures 0 <= ToScore(x) <= ToScore(y) <= 100
  {
    RoundKeepsOrder(x * 100.0, y * 100.0);
  }

  lemma InnerDistance(max: real, d: real)
    requires max * 0.35 < d <= max
    ensures 0.0 < max && 0.0 < d / (max + 0.01) < 1.0
    ensures 70 <= ToScore(0.7 + (1.0 - d / (max + 0.01)) * 0.25) <= 95
  {
    ScoreKeepsOrder(0.7, 0.7 + (1.0 - d / (max + 0.01)) * 0.25);
    ScoreKeepsOrder(0.7 + (1.0 - d / (max + 0.01)) * 0.25, 0.95);
  }

  lemma QuotientKeepsOrder(a: real, b: real, n: real)
    requires a <= b && 0.0 < n
    ensures a / n <= b / n
  {
  }

  /** Nearer is never worse, against the viewer's own maximum. */
  lemma NearerLocation(current: Profile, near: Profile, far: Profile)
    requires near.distanceKnown && far.distanceKnown && near.distanceKm <= far.distanceKm
    ensures 40 <= Location(current, far) <= Location(current, near) <= 96
  {
    var max := current.maxDistanceKm as real;
    if max * 0.35 < near.distanceKm <= max { InnerDistance(max, near.distanceKm); }
    if max * 0.35 < far.distanceKm <= max { InnerDistance(max, far.distanceKm); }
    if max * 0.35 < near.distanceKm <= far.distanceKm <= max {
      QuotientKeepsOrder(near.distanceKm, far.distanceKm, max + 0.01);
      ScoreKeepsOrder(0.7 + (1.0 - far.distanceKm / (max + 0.01)) * 0.25,
                      0.7 + (1.0 - near.distanceKm / (max + 0.01)) * 0.25);
    }
  }

  lemma LocationInBounds(current: Profile, c: Profile)
    ensures 40 <= Location(current, c) <= 96
  {
    if c.distanceKnown || c.distanceKm != 0.0 {
      var max := current.maxDistanceKm as real;
      if max * 0.35 < c.distanceKm <= max { InnerDistance(max, c.distanceKm); }
    }
  }

  function Parts(current: Profile, c: Profile): seq<int> {
    [Personality(current, c), Lifestyle(current, c), Interest(current, c),
     Relationship(current, c), Communication(current, c), Location(current, c)]
  }

  lemma PartsInBounds(current: Profile, c: Profile)
    ensures forall v :: v in Parts(current, c) ==> 0 <= v <= 100
    ensures Relationship(current, c) in {42, 78, 98} && Communication(current, c) in {58, 82, 94}
    ensures 40 <= Location(current, c) <= 96
  {
    LocationInBounds(current, c);
  }

  /** The weighted sum of the six parts, before rounding. */
  function Weighed(v: seq<int>): real
    requires |v| == 6
  {
    v[0] as real * 0.25 + v[1] as real * 0.20 + v[2] as real * 0.20
    + v[3] as real * 0.20 + v[4] as real * 0.10 + v[5] as real * 0.05
  }

  lemma WeighedBetween(v: seq<int>, low: int, high: int)
    requires |v| == 6 && forall x :: x in v ==> low <= x <= high
    ensures low as real <= Weighed(v) <= high as real
  {
    assert forall i :: 0 <= i < 6 ==> v[i] in v;
  }

  lemma WeighedInBounds(current: Profile, c: Profile)
    ensures 0.0 <= Weighed(Parts(current, c)) <= 98.8
  {
    var v := Parts(current, c);
    PartsInBounds(current, c);
    assert v[0] in v && v[1] in v && v[2] in v;
  }

  lemma OverallRounds(current: Profile, c: Profile)
    ensures Overall(current, c) == Clamp(Round(Weighed(Parts(current, c))), 0, 100)
  {
  }

  lemma RoundIsNearest(x: real)
    requires 0.0 <= x
    ensures -0.5 <= Round(x) as real - x <= 0.5
  {
  }

  /** The overall score is the weighted sum rounded to the nearest whole number. */
  lemma OverallIsNearest(current: Profile, c: Profile)
    ensures 0.0 <= Weighed(Parts(current, c)) <= 98.8 && 0 <= Overall(current, c) <= 99
    ensures Overall(current, c) == Round(Weighed(Parts(current, c)))
    ensures -0.5 <= Overall(current, c) as real - Weighed(Parts(current, c)) <= 0.5
  {
    WeighedInBounds(current, c);
    OverallRounds(current, c);
    RoundKeepsOrder(0.0, Weighed(Parts(current, c)));
    RoundKeepsOrder(Weighed(Parts(current, c)), 98.8);
    RoundIsNearest(Weighed(Parts(current, c)));
  }

  /** So it lies between the lowest and the highest of its parts. */
  lemma OverallIsBetweenItsParts(current: Profile, c: Profile, low: int, high: int)
    requires forall v :: v in Parts(current, c) ==> low <= v <= high
    requires 0 <= low
    ensures low <= Overall(current, c) <= high
  {
    OverallIsNearest(current, c);
    WeighedBetween(Parts(current, c), low, high);
    RoundKeepsOrder(low as real, Weighed(Parts(current, c)));
    RoundKeepsOrder(Weighed(Parts(current, c)), high as real);
  }

  // ----- who comes first ------------------------------------------------------

  lemma FeedScore(current: Profile, candidates: seq<Profile>, f: Filters, out: seq<Ranked>, i: nat)
    requires IsFeed(current, candidates, f, out) && i < |out|
    ensures out[i].score == RankScore(current, out[i].profile)
  {
    FeedMember(current, candidates, f, out, out[i]);
  }

  lemma HigherIsAhead(out: seq<Ranked>, i: nat, j: nat)
    requires InOrder(out) && i < |out| && j < |out| && i != j && Before(out[i], out[j])
    ensures i < j
  {
  }

  lemma SignalsInBounds(current: Profile, c: Profile)
    ensures 0.0 <= Signals(current, c) <= 37.0 + |Common(current.interests, c.interests)| as real * 1.4
  {
    assert 0.0 <= Completeness(c) <= 1.0;
  }

  /** A row's score is bounded by the parts of its profile: the overall score lies between the
      lowest and the highest part, and the signals on top add at most 37 points and 1.4 for each
      shared interest. */
  lemma ScoreIsBoundedByItsParts(current: Profile, candidates: seq<Profile>, f: Filters, out: seq<Ranked>, i: nat,
                                 low: int, high: int)
    requires IsFeed(current, candidates, f, out) && i < |out|
    requires 0 <= low && forall v :: v in Parts(current, out[i].profile) ==> low <= v <= high
    ensures low as real <= out[i].score
    ensures out[i].score <= high as real + 37.0 + |Common(current.interests, out[i].profile.interests)| as real * 1.4
  {
    FeedScore(current, candidates, f, out, i);
    OverallIsBetweenItsParts(current, out[i].profile, low, high);
    SignalsInBounds(current, out[i].profile);
  }

  lemma OverallGrows(current: Profile, less: Profile, more: Profile, k: nat)
    requires Weighed(Parts(current, less)) + k as real <= Weighed(Parts(current, more))
    ensures Overall(current, less) + k <= Overall(current, more)
  {
    OverallIsNearest(current, less);
    OverallIsNearest(current, more);
    RoundAdds(Weighed(Parts(current, less)), k);
    RoundKeepsOrder(Weighed(Parts(current, less)) + k as real, Weighed(Parts(current, more)));
  }

  predicate SameTastes(c: Profile, c': Profile) {
    && c'.traits == c.traits && c'.answers == c.answers && c'.habits == c.habits && c'.languages == c.languages
  }

  lemma TastesPart(current: Profile, c: Profile, c': Profile)
    requires SameTastes(c, c')
    ensures Personality(current, c') == Personality(current, c) && Lifestyle(current, c') == Lifestyle(current, c)
  {
  }

  lemma InterestPart(current: Profile, c: Profile, c': Profile)
    requires c'.interests == c.interests
    ensures Interest(current, c') == Interest(current, c)
  {
  }

  lemma LocationPart(current: Profile, c: Profile, c': Profile)
    requires c'.distanceKnown == c.distanceKnown && c'.distanceKm == c.distanceKm
    ensures Location(current, c') == Location(current, c)
  {
  }

  lemma StylePart(current: Profile, c: Profile, c': Profile)
    requires c'.comms == c.comms
    ensures Communication(current, c') == Communication(current, c)
  {
  }

  lemma IntentPart(current: Profile, c: Profile, c': Profile)
    requires c'.intent == c.intent
    ensures Relationship(current, c') == Relationship(current, c)
  {
  }

  lemma SameIntentSignals(current: Profile, c: Profile, c': Profile)
    requires c.intent != current.intent && c' == c.(id := c'.id, intent := current.intent)
    ensures Signals(current, c') == Signals(current, c) + 6.0
  {
  }

  lemma SameIntentScore(current: Profile, c: Profile, c': Profile)
    requires c.intent != current.intent && c' == c.(id := c'.id, intent := current.intent)
    ensures RankScore(current, c') >= RankScore(current, c) + 10.0
  {
    TastesPart(current, c, c');
    InterestPart(current, c, c');
    StylePart(current, c, c');
    LocationPart(current, c, c');
    PartsInBounds(current, c);
    assert Relationship(current, c') == 98 && Relationship(current, c) <= 78;
    OverallGrows(current, c, c', 4);
    SameIntentSignals(current, c, c');
  }

  /** Of two candidates who differ in nothing else, the one who wants what the viewer wants
      is at least ten points ahead. */
  lemma SameIntentLeads(current: Profile, candidates: seq<Profile>, f: Filters, out: seq<Ranked>, i: nat, j: nat)
    requires IsFeed(current, candidates, f, out) && i < |out| && j < |out|
    requires out[j].profile.intent != current.intent
    requires out[i].profile == out[j].profile.(id := out[i].profile.id, intent := current.intent)
    ensures out[i].score >= out[j].score + 10.0 && i < j
  {
    FeedScore(current, candidates, f, out, i);
    FeedScore(current, candidates, f, out, j);
    SameIntentScore(current, out[j].profile, out[i].profile);
    HigherIsAhead(out, i, j);
  }

  lemma SameStyleSignals(current: Profile, c: Profile, c': Profile)
    requires c' == c.(id := c'.id, comms := current.comms)
    ensures Signals(current, c') == Signals(current, c)
  {
  }

  lemma SameStyleScore(current: Profile, c: Profile, c': Profile)
    requires c.comms != current.comms && c' == c.(id := c'.id, comms := current.comms)
    ensures RankScore(current, c') >= RankScore(current, c) + 1.0
  {
    TastesPart(current, c, c');
    InterestPart(current, c, c');
    IntentPart(current, c, c');
    LocationPart(current, c, c');
    PartsInBounds(current, c);
    assert Communication(current, c') == 94 && Communication(current, c) <= 82;
    OverallGrows(current, c, c', 1);
    SameStyleSignals(current, c, c');
  }

  /** The one who writes as the viewer does is at least one point ahead. */
  lemma SameStyleLeads(current: Profile, candidates: seq<Profile>, f: Filters, out: seq<Ranked>, i: nat, j: nat)
    requires IsFeed(current, candidates, f, out) && i < |out| && j < |out|
    requires out[j].profile.comms != current.comms
    requires out[i].profile == out[j].profile.(id := out[i].profile.id, comms := current.comms)
    ensures out[i].score >= out[j].score + 1.0 && i < j
  {
    FeedScore(current, candidates, f, out, i);
    FeedScore(current, candidates, f, out, j);
    SameStyleScore(current, out[j].profile, out[i].profile);
    HigherIsAhead(out, i, j);
  }

  /** Neither verification nor presence counts towards compatibility. */
  lemma SameOverall(current: Profile, c: Profile, c': Profile)
    requires SameTastes(c, c') && c'.interests == c.interests && c'.intent == c.intent && c'.comms == c.comms
    requires c'.distanceKnown == c.distanceKnown && c'.distanceKm == c.distanceKm
    ensures Overall(current, c') == Overall(current, c)
  {
    TastesPart(current, c, c');
    InterestPart(current, c, c');
    IntentPart(current, c, c');
    StylePart(current, c, c');
    LocationPart(current, c, c');
    OverallIsNearest(current, c);
    OverallIsNearest(current, c');
  }

  lemma VerifiedSignals(current: Profile, c: Profile, c': Profile)
    requires c' == c.(id := c'.id, photoVerified := true, phoneVerified := c'.phoneVerified)
    requires !c.photoVerified && !c.phoneVerified
    ensures Signals(current, c') == Signals(current, c) + 4.8 + if c'.phoneVerified then 2.0 else 0.0
  {
  }

  lemma VerifiedScore(current: Profile, c: Profile, c': Profile)
    requires c' == c.(id := c'.id, photoVerified := true, phoneVerified := c'.phoneVerified)
    requires !c.photoVerified && !c.phoneVerified
    ensures RankScore(current, c') == RankScore(current, c) + 4.8 + if c'.phoneVerified then 2.0 else 0.0
  {
    SameOverall(current, c, c');
    VerifiedSignals(current, c, c');
  }

  /** A verified photo is worth 4.8 points, a verified telephone two more. */
  lemma VerifiedLeads(current: Profile, candidates: seq<Profile>, f: Filters, out: seq<Ranked>, i: nat, j: nat)
    requires IsFeed(current, candidates, f, out) && i < |out| && j < |out|
    requires !out[j].profile.photoVerified && !out[j].profile.phoneVerified
    requires var a, b := out[i].profile, out[j].profile;
             a == b.(id := a.id, photoVerified := true, phoneVerified := a.phoneVerified)
    ensures out[i].score == out[j].score + 4.8 + (if out[i].profile.phoneVerified then 2.0 else 0.0) && i < j
  {
    FeedScore(current, candidates, f, out, i);
    FeedScore(current, candidates, f, out, j);
    VerifiedScore(current, out[j].profile, out[i].profile);
    HigherIsAhead(out, i, j);
  }

  /** How recently somebody must have been there to count as more present. */
  predicate Fresher(a: Online, b: Online) {
    match a
    case OnlineNow => b != OnlineNow
    case Recently => b == ThisWeek || b == Offline
    case ThisWeek => b == Offline
    case Offline => false
  }

  lemma FresherSignals(current: Profile, c: Profile, c': Profile)
    requires Fresher(c'.online, c.online) && c' == c.(id := c'.id, online := c'.online)
    ensures 1.0 <= Signals(current, c') - Signals(current, c) <= 5.0
  {
  }

  lemma FresherScore(current: Profile, c: Profile, c': Profile)
    requires Fresher(c'.online, c.online) && c' == c.(id := c'.id, online := c'.online)
    ensures 1.0 <= RankScore(current, c') - RankScore(current, c) <= 5.0
  {
    SameOverall(current, c, c');
    FresherSignals(current, c, c');
  }

  /** The one seen more recently is ahead, by one to five points. */
  lemma FresherLeads(current: Profile, candidates: seq<Profile>, f: Filters, out: seq<Ranked>, i: nat, j: nat)
    requires IsFeed(current, candidates, f, out) && i < |out| && j < |out|
    requires Fresher(out[i].profile.online, out[j].profile.online)
    requires out[i].profile == out[j].profile.(id := out[i].profile.id, online := out[i].profile.online)
    ensures 1.0 <= out[i].score - out[j].score <= 5.0 && i < j
  {
    FeedScore(current, candidates, f, out, i);
    FeedScore(current, candidates, f, out, j);
    FresherScore(current, out[j].profile, out[i].profile);
    HigherIsAhead(out, i, j);
  }

  lemma NearerSignals(current: Profile, c: Profile, c': Profile)
    requires c.distanceKnown && c'.distanceKm <= c.distanceKm && c' == c.(id := c'.id, distanceKm := c'.distanceKm)
    ensures Signals(current, c') >= Signals(current, c)
  {
    assert Proximity(c'.distanceKm) >= Proximity(c.distanceKm);
  }

  lemma NearerScore(current: Profile, c: Profile, c': Profile)
    requires c.distanceKnown && c'.distanceKm <= c.distanceKm && c' == c.(id := c'.id, distanceKm := c'.distanceKm)
    ensures RankScore(current, c') >= RankScore(current, c)
  {
    TastesPart(current, c, c');
    InterestPart(current, c, c');
    IntentPart(current, c, c');
    StylePart(current, c, c');
    NearerLocation(current, c', c);
    OverallGrows(current, c, c', 0);
    NearerSignals(current, c, c');
  }

  /** The nearer one is never behind, and ahead where the ids are in that order. */
  lemma NearerIsNotBehind(current: Profile, candidates: seq<Profile>, f: Filters, out: seq<Ranked>, i: nat, j: nat)
    requires IsFeed(current, candidates, f, out) && i < |out| && j < |out|
    requires var a, b := out[i].profile, out[j].profile;
             b.distanceKnown && a.distanceKm <= b.distanceKm && a == b.(id := a.id, distanceKm := a.distanceKm)
    ensures out[i].score >= out[j].score
    ensures out[i].profile.id < out[j].profile.id ==> i < j
  {
    FeedScore(current, candidates, f, out, i);
    FeedScore(current, candidates, f, out, j);
    NearerScore(current, out[j].profile, out[i].profile);
    if out[i].profile.id < out[j].profile.id { HigherIsAhead(out, i, j); }
  }

  lemma {:induction false} OneMoreInCommon(a: seq<string>, b: seq<string>, v: string)
    requires v !in b
    ensures |Common(a, b + [v])| == |Common(a, b)| + multiset(a)[v]
  {
    if |a| > 0 {
      OneMoreInCommon(a[..|a| - 1], b, v);
      assert a == a[..|a| - 1] + [a[|a| - 1]];
    }
  }

  lemma RatioKeepsOrder(a: nat, b: nat, n: nat)
    requires a <= b && 0 < n
    ensures Ratio(a, n) <= Ratio(b, n)
  {
    QuotientKeepsOrder(a as real, b as real, n as real);
  }

  lemma LowerAppends(b: seq<string>, v: string)
    ensures LowerSet(b + [v]) == LowerSet(b) + {Lower(v)}
  {
    assert (b + [v])[|b|] == v;
    forall w | w in b ensures w in b + [v] {}
  }

  lemma OneMoreIsCloser(a: seq<string>, b: seq<string>, v: string)
    requires v in a
    ensures Jaccard(a, b) <= Jaccard(a, b + [v])
  {
    var left, right := LowerSet(a), LowerSet(b);
    assert LowerSet(b + [v]) == right + {Lower(v)} by { LowerAppends(b, v); }
    assert Lower(v) in left;
    assert left + (right + {Lower(v)}) == left + right;
    var shared, more := left * right, left * (right + {Lower(v)});
    assert shared <= more && |more| == |shared| + |more - shared|;
    RatioKeepsOrder(|shared|, |more|, |left + right|);
  }

  lemma OneMoreInterestSignals(current: Profile, c: Profile, c': Profile, v: string)
    requires v in current.interests && v !in c.interests
    requires c' == c.(id := c'.id, interests := c.interests + [v])
    ensures Signals(current, c') >= Signals(current, c) + 1.4
  {
    OneMoreInCommon(current.interests, c.interests, v);
    assert Completeness(c') >= Completeness(c);
  }

  lemma OneMoreInterestPart(current: Profile, c: Profile, c': Profile, v: string)
    requires v in current.interests && c'.interests == c.interests + [v]
    ensures Interest(current, c') >= Interest(current, c)
  {
    OneMoreIsCloser(current.interests, c.interests, v);
    ScoreKeepsOrder(Jaccard(current.interests, c.interests), Jaccard(current.interests, c'.interests));
  }

  lemma OneMoreInterestScore(current: Profile, c: Profile, c': Profile, v: string)
    requires v in current.interests && v !in c.interests
    requires c' == c.(id := c'.id, interests := c.interests + [v])
    ensures RankScore(current, c') >= RankScore(current, c) + 1.4
  {
    TastesPart(current, c, c');
    IntentPart(current, c, c');
    StylePart(current, c, c');
    LocationPart(current, c, c');
    OneMoreInterestPart(current, c, c', v);
    OverallGrows(current, c, c', 0);
    OneMoreInterestSignals(current, c, c', v);
  }

  /** The one who shares one more of the viewer's interests is at least 1.4 points ahead. */
  lemma OneMoreInterestLeads(current: Profile, candidates: seq<Profile>, f: Filters, out: seq<Ranked>,
                             i: nat, j: nat, v: string)
    requires IsFeed(current, candidates, f, out) && i < |out| && j < |out|
    requires v in current.interests && v !in out[j].profile.interests
    requires var a, b := out[i].profile, out[j].profile; a == b.(id := a.id, interests := b.interests + [v])
    ensures out[i].score >= out[j].score + 1.4 && i < j
  {
    FeedScore(current, candidates, f, out, i);
    FeedScore(current, candidates, f, out, j);
    OneMoreInterestScore(current, out[j].profile, out[i].profile, v);
    HigherIsAhead(out, i, j);
  }
}
