/** Compatibility scores and the ranked feed. Scores are real numbers; rounding of floats is not modelled. */
module Compat {
  import opened Rows

  datatype Gender = Woman | Man | NonBinary | OtherGender
  datatype Intent = LongTerm | SeriousOpen | Casual | NewConnections | NotSure
  datatype Comms = Thoughtful | Playful | Direct | SlowBurn | Frequent
  datatype Online = OnlineNow | Recently | ThisWeek | Offline
  datatype Habit = Exercise | Drinking | Smoking | Diet | Sleep | Pets | Children | Religion

  datatype AnswerTo = AnswerTo(question: string, answer: string)
  datatype Profile = Profile(
    id: UserId, age: int, gender: Gender, distanceKm: real, distanceKnown: bool,
    occupation: string, education: string, bio: string, photos: nat, prompts: nat,
    interests: seq<string>, traits: seq<string>, answers: seq<AnswerTo>,
    intent: Intent, comms: Comms, interestedIn: seq<Gender>, maxDistanceKm: int,
    habits: map<Habit, string>, languages: seq<string>, heightCm: Option<int>,
    photoVerified: bool, phoneVerified: bool, online: Online, hidden: bool)

  datatype Filters = Filters(
    minAge: int, maxAge: int, maxDistanceKm: int, genders: seq<Gender>, intents: seq<Intent>,
    interests: seq<string>, education: Option<string>, occupation: Option<string>,
    smoking: Option<string>, drinking: Option<string>, children: Option<string>,
    religion: Option<string>, languages: seq<string>, minHeightCm: Option<int>, maxHeightCm: Option<int>)

  // ----- strings --------------------------------------------------------------

  function LowerChar(c: char): char { if 'A' <= c <= 'Z' then c - 'A' + 'a' else c }

  function Lower(s: string): string { seq(|s|, i requires 0 <= i < |s| => LowerChar(s[i])) }

  predicate Starts(s: string, part: string, i: int)
    requires 0 <= i <= |s|
  {
    i + |part| <= |s| && s[i..i + |part|] == part
  }

  predicate Contains(s: string, part: string) {
    exists i :: 0 <= i <= |s| && Starts(s, part, i)
  }

  predicate SharesAny(a: seq<string>, b: seq<string>) { exists v :: v in a && v in b }

  // ----- scores ---------------------------------------------------------------

  function Clamp(v: int, lo: int, hi: int): int { if v < lo then lo else if v > hi then hi else v }
  function Round(x: real): int { if x >= 0.0 then (x + 0.5).Floor else -((0.5 - x).Floor) }
  function ToScore(v: real): int { Clamp(Round(v * 100.0), 0, 100) }
  function Clamp01(v: real): real { if v < 0.0 then 0.0 else if v > 1.0 then 1.0 else v }

  function LowerSet(values: seq<string>): set<string> { set v | v in values :: Lower(v) }

  function Ratio(part: nat, whole: nat): real
    requires whole > 0
  {
    part as real / whole as real
  }

  /** Shared over all, regardless of case, order and repetition; 0.7 for two empty lists. */
  function Jaccard(a: seq<string>, b: seq<string>): real {
    if LowerSet(a) + LowerSet(b) == {} then 0.7
    else Ratio(|LowerSet(a) * LowerSet(b)|, |LowerSet(a) + LowerSet(b)|)
  }

  method CollectLower(values: seq<string>) returns (out: set<string>)
    ensures out == LowerSet(values)
  {
    out := {};
    for i := 0 to |values|
      invariant out == LowerSet(values[..i])
    {
      assert values[..i + 1] == values[..i] + [values[i]];
      out := out + {Lower(values[i])};
    }
    assert values[..|values|] == values;
  }

  method AddAll(left: set<string>, right: set<string>) returns (union: set<string>)
    ensures union == left + right
  {
    union := left;
    var rest := right;
    while rest != {}
      invariant rest <= right && union == left + (right - rest)
      decreases rest
    {
      var k :| k in rest;
      union := union + {k};
      rest := rest - {k};
    }
  }

  /** Taking one more key out of `rest` counts it exactly if it is in `all`. */
  lemma CountOne<T>(all: set<T>, rest: set<T>, k: T)
    requires k in rest
    ensures |all - (rest - {k})| == |all - rest| + if k in all then 1 else 0
  {
    if k in all {
      assert all - (rest - {k}) == (all - rest) + {k};
    } else {
      assert all - (rest - {k}) == all - rest;
    }
  }

  lemma AllCounted<T>(all: set<T>, rest: set<T>)
    ensures all <= rest ==> |all - rest| == 0
    ensures rest == {} ==> |all - rest| == |all|
  {
    if all <= rest { assert all - rest == {}; }
    if rest == {} { assert all - rest == all; }
  }

  method CountShared(left: set<string>, right: set<string>) returns (shared: nat)
    ensures shared == |left * right|
  {
    shared := 0;
    var rest := left;
    AllCounted(left * right, rest);
    while rest != {}
      invariant rest <= left && shared == |left * right - rest|
      decreases rest
    {
      var k :| k in rest;
      CountOne(left * right, rest, k);
      if k in right {
        shared := shared + 1;
      }
      rest := rest - {k};
    }
    AllCounted(left * right, rest);
  }

  /** The loops run over sets in whatever order the runtime picks; the score does not show it. */
  method JaccardOf(a: seq<string>, b: seq<string>) returns (score: real)
    ensures score == Jaccard(a, b)
  {
    if |a| == 0 && |b| == 0 { return 0.7; }
    var left := CollectLower(a);
    var right := CollectLower(b);
    var union := AddAll(left, right);
    if |union| == 0 { return 0.7; }
    var shared := CountShared(left, right);
    score := shared as real / |union| as real;
  }

  /** The last answer to each question counts. */
  function LastAnswer(answers: seq<AnswerTo>, question: string): Option<string> {
    if |answers| == 0 then None
    else if answers[|answers| - 1].question == question then Some(answers[|answers| - 1].answer)
    else LastAnswer(answers[..|answers| - 1], question)
  }

  function Compared(a: seq<AnswerTo>, b: seq<AnswerTo>): nat {
    if |a| == 0 then 0
    else Compared(a[..|a| - 1], b) + if LastAnswer(b, a[|a| - 1].question).Some? then 1 else 0
  }

  function Same(a: seq<AnswerTo>, b: seq<AnswerTo>): nat {
    if |a| == 0 then 0
    else Same(a[..|a| - 1], b) + if LastAnswer(b, a[|a| - 1].question) == Some(a[|a| - 1].answer) then 1 else 0
  }

  function AnswerOverlap(a: seq<AnswerTo>, b: seq<AnswerTo>): real {
    if |a| == 0 || |b| == 0 || Compared(a, b) == 0 then 0.7
    else 0.45 + Ratio(Same(a, b), Compared(a, b)) * 0.55
  }

  method OverlapOf(a: seq<AnswerTo>, b: seq<AnswerTo>) returns (score: real)
    ensures score == AnswerOverlap(a, b)
  {
    if |a| == 0 || |b| == 0 { return 0.7; }
    var byId: map<string, string> := map[];
    for i := 0 to |b|
      invariant forall q :: LastAnswer(b[..i], q) == if q in byId then Some(byId[q]) else None
    {
      assert b[..i + 1][..i] == b[..i];
      byId := byId[b[i].question := b[i].answer];
    }
    assert b[..|b|] == b;
    var same, compared := 0, 0;
    for i := 0 to |a|
      invariant compared == Compared(a[..i], b) && same == Same(a[..i], b) && same <= compared
    {
      assert a[..i + 1][..i] == a[..i];
      if a[i].question in byId {
        compared := compared + 1;
        if byId[a[i].question] == a[i].answer { same := same + 1; }
      }
    }
    assert a[..|a|] == a;
    if compared == 0 { return 0.7; }
    score := 0.45 + (same as real / compared as real) * 0.55;
  }

  const SYNONYMS: seq<seq<string>> := [
    ["socially", "occasionally", "wine with dinner"],
    ["rarely", "never"],
    ["early bird", "early-ish", "early after shows"],
    ["night owl"],
    ["dog person", "both"],
    ["cat person", "both"],
    ["want someday", "have and open to more"]]

  predicate SoftMatch(a: string, b: string) {
    var left, right := Lower(a), Lower(b);
    left == right ||
    exists g :: 0 <= g < |SYNONYMS| &&
      (exists w :: w in SYNONYMS[g] && Contains(left, w)) && (exists w :: w in SYNONYMS[g] && Contains(right, w))
  }

  function HabitIn(habits: map<Habit, string>, k: Habit): string { if k in habits then habits[k] else "" }

  function Matching(a: map<Habit, string>, b: map<Habit, string>): set<Habit> {
    set k | k in a && SoftMatch(a[k], HabitIn(b, k))
  }

  function Lifestyle(a: Profile, b: Profile): int {
    var raw := if |a.habits| == 0 then 0.7 else Ratio(|Matching(a.habits, b.habits)|, |a.habits|);
    ToScore(Clamp01(raw + if SharesAny(a.languages, b.languages) then 0.08 else 0.0))
  }

  lemma MatchingHas(a: map<Habit, string>, b: map<Habit, string>, key: Habit)
    requires key in a
    ensures key in Matching(a, b) <==> SoftMatch(a[key], HabitIn(b, key))
  {
  }

  method CountMatching(a: map<Habit, string>, b: map<Habit, string>) returns (matches: nat, compared: nat)
    ensures matches == |Matching(a, b)| && compared == |a|
  {
    ghost var all := Matching(a, b);
    var rest := a.Keys;
    matches, compared := 0, 0;
    AllCounted(all, rest);
    AllCounted(a.Keys, rest);
    while rest != {}
      invariant rest <= a.Keys
      invariant compared == |a.Keys - rest| && matches == |all - rest|
      decreases rest
    {
      var key :| key in rest;
      CountOne(all, rest, key);
      CountOne(a.Keys, rest, key);
      MatchingHas(a, b, key);
      compared := compared + 1;
      if SoftMatch(a[key], HabitIn(b, key)) {
        matches := matches + 1;
      }
      rest := rest - {key};
    }
    AllCounted(all, rest);
    AllCounted(a.Keys, rest);
  }

  method LifestyleOf(a: Profile, b: Profile) returns (score: int)
    ensures score == Lifestyle(a, b)
  {
    var matches, compared := CountMatching(a.habits, b.habits);
    var bonus := 0.0;
    if SharesAny(a.languages, b.languages) { bonus := 0.08; }
    var raw := 0.7;
    if compared != 0 { raw := matches as real / compared as real; }
    score := ToScore(Clamp01(raw + bonus));
  }

  function Neighbors(i: Intent): set<Intent> {
    match i
    case LongTerm => {SeriousOpen}
    case SeriousOpen => {LongTerm, NotSure}
    case Casual => {NewConnections, NotSure}
    case NewConnections => {Casual, NotSure}
    case NotSure => {SeriousOpen, NewConnections}
  }

  function Suits(c: Comms): set<Comms> {
    match c
    case Thoughtful => {SlowBurn, Direct}
    case Playful => {Frequent, Direct}
    case Direct => {Thoughtful, Playful}
    case SlowBurn => {Thoughtful}
    case Frequent => {Playful}
  }

  function Personality(a: Profile, b: Profile): int {
    ToScore(Jaccard(a.traits, b.traits) * 0.55 + AnswerOverlap(a.answers, b.answers) * 0.45)
  }
  function Interest(a: Profile, b: Profile): int { ToScore(Jaccard(a.interests, b.interests)) }
  function Relationship(a: Profile, b: Profile): int {
    if a.intent == b.intent then 98 else if b.intent in Neighbors(a.intent) then 78 else 42
  }
  function Communication(a: Profile, b: Profile): int {
    if a.comms == b.comms then 94 else if b.comms in Suits(a.comms) then 82 else 58
  }
  function Location(current: Profile, candidate: Profile): int {
    if !candidate.distanceKnown && candidate.distanceKm == 0.0 then 50
    else
      var max, d := current.maxDistanceKm as real, candidate.distanceKm;
      if d <= max * 0.35 then 96
      else if d <= max then
        ToScore(0.7 + (1.0 - d / (max + 0.01)) * 0.25)
      else if d <= max * 1.4 then 62
      else 40
  }

  function Overall(current: Profile, candidate: Profile): int {
    Clamp(Round(
      Personality(current, candidate) as real * 0.25 +
      Lifestyle(current, candidate) as real * 0.20 +
      Interest(current, candidate) as real * 0.20 +
      Relationship(current, candidate) as real * 0.20 +
      Communication(current, candidate) as real * 0.10 +
      Location(current, candidate) as real * 0.05), 0, 100)
  }

  /** Interests both list, exact case, one entry for each time the viewer lists it. */
  function Common(a: seq<string>, b: seq<string>): seq<string> {
    if |a| == 0 then []
    else Common(a[..|a| - 1], b) + if a[|a| - 1] in b then [a[|a| - 1]] else []
  }

  function Completeness(p: Profile): real {
    (if p.photos >= 3 then 0.3 else 0.0) + (if |p.bio| > 40 then 0.2 else 0.0)
    + (if p.prompts >= 2 then 0.2 else 0.0) + (if |p.interests| >= 4 then 0.2 else 0.0)
    + (if p.photoVerified then 0.1 else 0.0)
  }

  function Proximity(km: real): real {
    var p := 100.0 - km * 1.2;
    if p < 0.0 then 0.0 else if p > 12.0 then 12.0 else p
  }

  /** What an active, near, verified and complete profile adds to its compatibility. */
  function Signals(current: Profile, c: Profile): real {
    (if current.intent == c.intent then 6.0 else 0.0)
    + |Common(current.interests, c.interests)| as real * 1.4
    + (if c.distanceKnown || c.distanceKm > 0.0 then Proximity(c.distanceKm) else 0.0)
    + (if c.photoVerified then 4.0 else 0.0)
    + (if c.phoneVerified then 2.0 else 0.0)
    + (match c.online case OnlineNow => 5.0 case Recently => 3.0 case ThisWeek => 1.0 case Offline => 0.0)
    + Completeness(c) * 8.0
  }

  function RankScore(current: Profile, c: Profile): real { Overall(current, c) as real + Signals(current, c) }

  predicate ContainsFold(s: string, part: string) { Contains(Lower(s), Lower(part)) }

  predicate PassesFilters(p: Profile, f: Filters, current: Profile) {
    && !p.hidden
    && f.minAge <= p.age <= f.maxAge
    && p.distanceKm <= f.maxDistanceKm as real
    && (|f.genders| > 0 ==> p.gender in f.genders)
    && (|f.intents| > 0 ==> p.intent in f.intents)
    && (|f.interests| > 0 ==> SharesAny(f.interests, p.interests))
    && (f.education.Some? ==> ContainsFold(p.education, f.education.value))
    && (f.occupation.Some? ==> ContainsFold(p.occupation, f.occupation.value))
    && (f.smoking.Some? ==> HabitIn(p.habits, Smoking) == f.smoking.value)
    && (f.drinking.Some? ==> HabitIn(p.habits, Drinking) == f.drinking.value)
    && (f.children.Some? ==> HabitIn(p.habits, Children) == f.children.value)
    && (f.religion.Some? ==> ContainsFold(HabitIn(p.habits, Religion), f.religion.value))
    && (|f.languages| > 0 ==> SharesAny(f.languages, p.languages))
    && (p.heightCm.Some? ==>
         && (f.minHeightCm.Some? ==> f.minHeightCm.value <= p.heightCm.value)
         && (f.maxHeightCm.Some? ==> p.heightCm.value <= f.maxHeightCm.value))
    && (|f.genders| == 0 && |current.interestedIn| > 0 ==> p.gender in current.interestedIn)
  }

  // ----- the feed -------------------------------------------------------------

  datatype Ranked = Ranked(profile: Profile, score: real)

  /** Higher scores first, equal scores by id. */
  predicate Before(a: Ranked, b: Ranked) {
    a.score > b.score || (a.score == b.score && a.profile.id < b.profile.id)
  }

  predicate InOrder(rows: seq<Ranked>) { forall i, j :: 0 <= i < j < |rows| ==> !Before(rows[j], rows[i]) }

  function Score(current: Profile, candidates: seq<Profile>, f: Filters): seq<Ranked> {
    if |candidates| == 0 then []
    else
      var c := candidates[|candidates| - 1];
      Score(current, candidates[..|candidates| - 1], f) +
        if PassesFilters(c, f, current) then [Ranked(c, RankScore(current, c))] else []
  }

  lemma InsertedInOrder(rows: seq<Ranked>, row: Ranked, i: nat)
    requires InOrder(rows) && i <= |rows|
    requires forall j :: i <= j < |rows| ==> Before(row, rows[j])
    requires i > 0 ==> !Before(row, rows[i - 1])
    ensures InOrder(rows[..i] + [row] + rows[i..])
  {
    var out := rows[..i] + [row] + rows[i..];
    forall x, y | 0 <= x < y < |out| ensures !Before(out[y], out[x]) {
      if y == i && x < i - 1 {
        assert !Before(rows[i - 1], rows[x]) && !Before(row, rows[i - 1]);
      }
    }
  }

  /** Where the stable sort puts one more row: after everything not behind it. */
  method InsertRow(rows: seq<Ranked>, row: Ranked) returns (out: seq<Ranked>)
    requires InOrder(rows)
    ensures InOrder(out) && multiset(out) == multiset(rows) + multiset{row}
  {
    var i := |rows|;
    while i > 0 && Before(row, rows[i - 1])
      invariant 0 <= i <= |rows|
      invariant forall j :: i <= j < |rows| ==> Before(row, rows[j])
    {
      i := i - 1;
    }
    out := rows[..i] + [row] + rows[i..];
    assert rows == rows[..i] + rows[i..];
    InsertedInOrder(rows, row, i);
  }

  method SortStable(rows: seq<Ranked>) returns (out: seq<Ranked>)
    ensures InOrder(out) && multiset(out) == multiset(rows)
  {
    out := [];
    for i := 0 to |rows|
      invariant InOrder(out) && multiset(out) == multiset(rows[..i])
    {
      assert rows[..i + 1] == rows[..i] + [rows[i]];
      out := InsertRow(out, rows[i]);
    }
    assert rows[..|rows|] == rows;
  }

  /** Filter, score and rank. */
  method Recommend(current: Profile, candidates: seq<Profile>, f: Filters) returns (out: seq<Ranked>)
    ensures InOrder(out) && multiset(out) == multiset(Score(current, candidates, f))
  {
    out := [];
    for i := 0 to |candidates|
      invariant out == Score(current, candidates[..i], f)
    {
      assert candidates[..i + 1][..i] == candidates[..i];
      if PassesFilters(candidates[i], f, current) {
        out := out + [Ranked(candidates[i], RankScore(current, candidates[i]))];
      }
    }
    assert candidates[..|candidates|] == candidates;
    out := SortStable(out);
  }

  // ----- one feed only --------------------------------------------------------

  predicate DistinctIds(ps: seq<Profile>) { forall i, j :: 0 <= i < j < |ps| ==> ps[i].id != ps[j].id }

  predicate DistinctRows(rows: seq<Ranked>) {
    forall i, j :: 0 <= i < j < |rows| ==> rows[i].profile.id != rows[j].profile.id
  }

  lemma InFront<T>(s: seq<T>, x: T)
    requires |s| > 0
    ensures x in s <==> x in s[..|s| - 1] || x == s[|s| - 1]
  {
    assert s == s[..|s| - 1] + [s[|s| - 1]];
  }

  lemma {:induction false} ScoreMembers(current: Profile, candidates: seq<Profile>, f: Filters, r: Ranked)
    ensures r in Score(current, candidates, f) <==>
      r.profile in candidates && PassesFilters(r.profile, f, current) && r.score == RankScore(current, r.profile)
    decreases |candidates|
  {
    if |candidates| > 0 {
      var init, c := candidates[..|candidates| - 1], candidates[|candidates| - 1];
      ScoreMembers(current, init, f, r);
      InFront(candidates, r.profile);
      var row := if PassesFilters(c, f, current) then [Ranked(c, RankScore(current, c))] else [];
      assert Score(current, candidates, f) == Score(current, init, f) + row;
      assert r in row <==> PassesFilters(c, f, current) && r == Ranked(c, RankScore(current, c));
    }
  }

  lemma {:induction false} ScoresAreDistinct(current: Profile, candidates: seq<Profile>, f: Filters)
    requires DistinctIds(candidates)
    ensures DistinctRows(Score(current, candidates, f))
    decreases |candidates|
  {
    if |candidates| > 0 {
      var init, c := candidates[..|candidates| - 1], candidates[|candidates| - 1];
      ScoresAreDistinct(current, init, f);
      var before := Score(current, init, f);
      forall i | 0 <= i < |before| ensures before[i].profile.id != c.id {
        ScoreMembers(current, init, f, before[i]);
        assert before[i] in before;
        var j :| 0 <= j < |init| && init[j] == before[i].profile;
        assert candidates[j] == init[j];
      }
    }
  }

  lemma HeadIsFirst(rows: seq<Ranked>, r: Ranked)
    requires InOrder(rows) && r in rows
    ensures r == rows[0] || !Before(r, rows[0])
  {
  }

  lemma SameHead(a: seq<Ranked>, b: seq<Ranked>)
    requires InOrder(a) && InOrder(b) && DistinctRows(a) && |a| > 0 && |b| > 0
    requires forall r :: r in a <==> r in b
    ensures a[0] == b[0]
  {
    assert a[0] in a && b[0] in b;
    HeadIsFirst(a, b[0]);
    HeadIsFirst(b, a[0]);
  }

  lemma RestMember(rows: seq<Ranked>, r: Ranked)
    requires |rows| > 0 && DistinctRows(rows)
    ensures r in rows[1..] <==> r in rows && r != rows[0]
  {
    if r in rows && r != rows[0] {
      var i :| 0 <= i < |rows| && rows[i] == r;
      assert rows[1..][i - 1] == r;
    }
    if r in rows[1..] {
      var i :| 0 <= i < |rows[1..]| && rows[1..][i] == r;
      assert rows[i + 1] == r;
    }
  }

  /** Two ordered lists of the same rows with distinct ids are the same list. */
  lemma {:induction false} OneOrder(a: seq<Ranked>, b: seq<Ranked>)
    requires InOrder(a) && InOrder(b) && DistinctRows(a) && DistinctRows(b)
    requires forall r :: r in a <==> r in b
    ensures a == b
    decreases |a|
  {
    if |b| > 0 { assert b[0] in b; }
    if |a| > 0 {
      assert a[0] in a && a[0] in b;
      SameHead(a, b);
      forall r ensures r in a[1..] <==> r in b[1..] {
        RestMember(a, r);
        RestMember(b, r);
      }
      OneOrder(a[1..], b[1..]);
    }
  }

  predicate IsFeed(current: Profile, candidates: seq<Profile>, f: Filters, out: seq<Ranked>) {
    InOrder(out) && multiset(out) == multiset(Score(current, candidates, f))
  }

  lemma {:induction false} OnceOnly(b: seq<Ranked>, r: Ranked)
    requires DistinctRows(b)
    ensures multiset(b)[r] <= 1
    decreases |b|
  {
    if |b| > 0 {
      assert b == [b[0]] + b[1..];
      OnceOnly(b[1..], r);
      if b[0] == r {
        assert r !in b[1..] by { RestMember(b, r); }
      }
    }
  }

  lemma SameBag(a: seq<Ranked>, b: seq<Ranked>)
    requires multiset(a) == multiset(b) && DistinctRows(b)
    ensures DistinctRows(a)
  {
    forall i, j | 0 <= i < j < |a| ensures a[i].profile.id != a[j].profile.id {
      if a[i] == a[j] {
        assert a == a[..i] + [a[i]] + a[i + 1..j] + [a[j]] + a[j + 1..];
        assert multiset(a)[a[i]] >= 2;
        OnceOnly(b, a[i]);
      } else {
        assert a[i] in multiset(b) && a[j] in multiset(b);
        var x :| 0 <= x < |b| && b[x] == a[i];
        var y :| 0 <= y < |b| && b[y] == a[j];
      }
    }
  }

  lemma FeedRows(current: Profile, candidates: seq<Profile>, f: Filters, out: seq<Ranked>)
    requires DistinctIds(candidates) && IsFeed(current, candidates, f, out)
    ensures DistinctRows(out)
    ensures forall r :: r in out <==>
      r.profile in candidates && PassesFilters(r.profile, f, current) && r.score == RankScore(current, r.profile)
  {
    var scored := Score(current, candidates, f);
    forall r ensures r in out <==> r in scored {
      assert r in multiset(out) <==> r in multiset(scored);
    }
    forall r { ScoreMembers(current, candidates, f, r); }
    ScoresAreDistinct(current, candidates, f);
    SameBag(out, scored);
  }

  /** The feed holds exactly the candidates that pass, by score then id, and is the only
      such list: in whatever order the candidates arrived, the answer is the same. */
  lemma FeedIsCanonical(current: Profile, some: seq<Profile>, others: seq<Profile>, f: Filters,
                        a: seq<Ranked>, b: seq<Ranked>)
    requires DistinctIds(some) && DistinctIds(others) && forall p :: p in some <==> p in others
    requires IsFeed(current, some, f, a) && IsFeed(current, others, f, b)
    ensures a == b
    ensures forall i, j :: 0 <= i < j < |a| ==> Before(a[i], a[j])
  {
    FeedRows(current, some, f, a);
    FeedRows(current, others, f, b);
    OneOrder(a, b);
  }
}
