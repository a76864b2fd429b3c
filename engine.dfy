/** The InCoScore engine (ivy_intelligence/apps/incoscore/engine.py): the
    score of a student, its storage with the history gate, the per-category
    breakdown, the leaderboard and the recommendations. Scores are exact
    reals; `round(..., 2)` is not modelled. */
module Engine {
  import opened Wrappers
  import opened Text
  import opened Profiles
  import opened Achievements
  import opened OpportunityModels

  // ---------------------------------------------------------------- weights

  /** The engine's CATEGORY_WEIGHTS dict. */
  const ENGINE_WEIGHTS: map<string, real> := map[
    "RESEARCH" := 0.30, "HACKATHON" := 0.25, "INTERNSHIP" := 0.20, "CODING" := 0.15,
    "CONFERENCE" := 0.10, "CERTIFICATION" := 0.05, "PROJECT" := 0.05, "AWARD" := 0.10]

  /** The order in which the dict lists its keys. */
  const ENGINE_ORDER: seq<string> :=
    ["RESEARCH", "HACKATHON", "INTERNSHIP", "CODING", "CONFERENCE", "CERTIFICATION", "PROJECT", "AWARD"]

  /** The engine's table is the model module's table, listed in the order of
      the category choices, each category once. */
  lemma EngineWeightsMatchModel()
    ensures ENGINE_WEIGHTS == CATEGORY_WEIGHTS
    ensures ENGINE_ORDER == ACHIEVEMENT_CATEGORIES
    ensures ENGINE_WEIGHTS.Keys == set c | c in ENGINE_ORDER
    ensures forall i, j :: 0 <= i < j < |ENGINE_ORDER| ==> ENGINE_ORDER[i] != ENGINE_ORDER[j]
  {
  }

  lemma OrderedKeyIsKey(i: nat)
    requires i < |ENGINE_ORDER|
    ensures ENGINE_ORDER[i] in ENGINE_WEIGHTS
  {
  }

  /** `CATEGORY_WEIGHTS.get(category, 0)` on the engine's table. */
  function EngineWeight(category: string): real
  {
    if category in ENGINE_WEIGHTS then ENGINE_WEIGHTS[category] else 0.0
  }

  /** Both weight tables give every category, known or not, the same weight. */
  lemma EngineWeightIsWeight(category: string)
    ensures EngineWeight(category) == Weight(category)
  {
    EngineWeightsMatchModel();
  }

  /** The engine's term for a category whose best raw score is `raw`. */
  function Term(category: string, raw: real): real
  {
    (raw / 100.0) * EngineWeight(category) * 100.0
  }

  /** The engine's term is `contribution_to_incoscore` of an achievement with that raw score. */
  lemma TermIsContribution(category: string, raw: real)
    ensures Term(category, raw) == Contribution(category, raw)
  {
    EngineWeightIsWeight(category);
    ContributionIsWeighted(category, raw);
  }

  // ---------------------------------------------------------------- best per category

  /** Counted by the score: the student's verified achievements with a positive raw score. */
  predicate Eligible(a: Achievement, student: UserId)
  {
    a.student == student && a.verified && a.rawScore > 0.0
  }

  /** Shown by the breakdown: the student's verified achievements. */
  predicate VerifiedFor(a: Achievement, student: UserId)
  {
    a.student == student && a.verified
  }

  /** The best raw score per category, by the loop that keeps a score when the
      category is new or the score beats the one kept. */
  function Best(xs: seq<Achievement>): map<string, real>
  {
    if xs == [] then map[]
    else
      var m := Best(xs[..|xs| - 1]);
      var a := xs[|xs| - 1];
      if a.category !in m || a.rawScore > m[a.category] then m[a.category := a.rawScore] else m
  }

  /** Visiting one more achievement. */
  lemma BestSnoc(xs: seq<Achievement>, a: Achievement)
    ensures Best(xs + [a]) ==
              if a.category !in Best(xs) || a.rawScore > Best(xs)[a.category] then Best(xs)[a.category := a.rawScore] else Best(xs)
  {
    assert (xs + [a])[..|xs|] == xs;
  }

  /** Every category met has a best score no lower than any of its
      achievements, and each best score is the score of an achievement of
      that category. */
  lemma {:induction false} BestSpec(xs: seq<Achievement>)
    ensures forall a :: a in xs ==> a.category in Best(xs) && a.rawScore <= Best(xs)[a.category]
    ensures forall c :: c in Best(xs) ==> exists a :: a in xs && a.category == c && a.rawScore == Best(xs)[c]
  {
    if xs != [] {
      var init, a := xs[..|xs| - 1], xs[|xs| - 1];
      assert xs == init + [a];
      BestSpec(init);
      BestSnoc(init, a);
      forall c | c in Best(xs) ensures exists b :: b in xs && b.category == c && b.rawScore == Best(xs)[c] {
        if c == a.category && Best(xs)[c] == a.rawScore {
          assert a in xs;
        } else {
          var b :| b in init && b.category == c && b.rawScore == Best(init)[c];
          assert b in xs;
        }
      }
    }
  }

  /** Only the best per category counts, whatever the order: lists with the
      same elements have the same best scores. */
  lemma BestDependsOnElementsOnly(xs: seq<Achievement>, ys: seq<Achievement>)
    requires forall a :: a in xs <==> a in ys
    ensures Best(xs) == Best(ys)
  {
    var m1, m2 := Best(xs), Best(ys);
    BestSpec(xs);
    BestSpec(ys);
    forall c | c in m1 ensures c in m2 && m1[c] == m2[c] {
      var a :| a in xs && a.category == c && a.rawScore == m1[c];
      var b :| b in ys && b.category == c && b.rawScore == m2[c];
      assert a.rawScore <= m2[c] && b.rawScore <= m1[c];
    }
    forall c | c in m2 ensures c in m1 {
      var b :| b in ys && b.category == c && b.rawScore == m2[c];
    }
    assert m1.Keys == m2.Keys;
  }

  /** An achievement that does not beat the best of its category changes nothing. */
  lemma BestOfDominated(xs: seq<Achievement>, a: Achievement)
    requires a.category in Best(xs) && a.rawScore <= Best(xs)[a.category]
    ensures Best(xs + [a]) == Best(xs)
  {
    BestSnoc(xs, a);
  }

  /** A best score per category kept together with the order in which the
      categories were first met: the dict of the source, whose items are
      visited in that order. */
  ghost predicate KeyOrder(order: seq<string>, m: map<string, real>)
  {
    && (forall i, j :: 0 <= i < j < |order| ==> order[i] != order[j])
    && (forall c :: c in m <==> c in order)
  }

  /** The `category_scores` loop, shared by the score and the breakdown. */
  method BestPerCategory(xs: seq<Achievement>) returns (best: map<string, real>, order: seq<string>)
    ensures best == Best(xs) && KeyOrder(order, best)
  {
    best := map[];
    order := [];
    for i := 0 to |xs|
      invariant best == Best(xs[..i]) && KeyOrder(order, best)
    {
      var a := xs[i];
      assert xs[..i + 1] == xs[..i] + [a];
      BestSnoc(xs[..i], a);
      if a.category !in best || a.rawScore > best[a.category] {
        if a.category !in best {
          order := order + [a.category];
        }
        best := best[a.category := a.rawScore];
      }
    }
    assert xs[..|xs|] == xs;
  }

  // ---------------------------------------------------------------- base sum

  /** The term of `c` when `c` has a best score, 0 otherwise. */
  function TermOf(c: string, m: map<string, real>): real
  {
    if c in m then Term(c, m[c]) else 0.0
  }

  /** Sum of the terms of the listed categories. */
  function SumOver(cs: seq<string>, m: map<string, real>): real
  {
    if cs == [] then 0.0 else TermOf(cs[0], m) + SumOver(cs[1..], m)
  }

  /** The weighted base score: the terms of the eight categories. Categories
      outside the weight table weigh 0 and add nothing. */
  function BaseScore(m: map<string, real>): real
  {
    SumOver(ACHIEVEMENT_CATEGORIES, m)
  }

  lemma {:induction false} SumOverAppend(a: seq<string>, b: seq<string>, m: map<string, real>)
    ensures SumOver(a + b, m) == SumOver(a, m) + SumOver(b, m)
  {
    if a != [] {
      assert (a + b)[0] == a[0] && (a + b)[1..] == a[1..] + b;
      SumOverAppend(a[1..], b, m);
    } else {
      assert a + b == b;
    }
  }

  lemma {:induction false} SumOverZero(cs: seq<string>, m: map<string, real>)
    requires forall c :: c in cs ==> TermOf(c, m) == 0.0
    ensures SumOver(cs, m) == 0.0
  {
    if cs != [] {
      assert forall c :: c in cs[1..] ==> c in cs;
      SumOverZero(cs[1..], m);
    }
  }

  /** The list with the element at `j` taken out. */
  function RemoveAt(ys: seq<string>, j: nat): (rest: seq<string>)
    requires j < |ys|
    ensures |rest| == |ys| - 1
    ensures forall k :: 0 <= k < |rest| ==> rest[k] == if k < j then ys[k] else ys[k + 1]
  {
    ys[..j] + ys[j + 1..]
  }

  lemma SumOverRemoveAt(ys: seq<string>, j: nat, m: map<string, real>)
    requires j < |ys|
    ensures SumOver(ys, m) == TermOf(ys[j], m) + SumOver(RemoveAt(ys, j), m)
  {
    assert ys == ys[..j] + [ys[j]] + ys[j + 1..];
    SumOverAppend(ys[..j] + [ys[j]], ys[j + 1..], m);
    SumOverAppend(ys[..j], [ys[j]], m);
    SumOverAppend(ys[..j], ys[j + 1..], m);
    assert SumOver([ys[j]], m) == TermOf(ys[j], m);
  }

  /** Taking out the element at `j` of a repetition-free list leaves exactly
      the other elements, still without repetition. */
  lemma RemoveAtMembers(ys: seq<string>, j: nat)
    requires j < |ys|
    requires forall a, b :: 0 <= a < b < |ys| ==> ys[a] != ys[b]
    ensures forall c :: c in RemoveAt(ys, j) <==> c in ys && c != ys[j]
    ensures forall a, b :: 0 <= a < b < |RemoveAt(ys, j)| ==> RemoveAt(ys, j)[a] != RemoveAt(ys, j)[b]
  {
    var rest := RemoveAt(ys, j);
    forall c ensures c in rest <==> c in ys && c != ys[j] {
      if c in rest {
        var k :| 0 <= k < |rest| && rest[k] == c;
        if k < j { assert ys[k] == c; } else { assert ys[k + 1] == c; }
      }
      if c in ys && c != ys[j] {
        var k :| 0 <= k < |ys| && ys[k] == c;
        if k < j { assert rest[k] == c; } else { assert rest[k - 1] == c; }
      }
    }
  }

  /** Two repetition-free lists that differ only in categories whose term is
      0 have the same sum. */
  lemma {:induction false} SumOverReorder(xs: seq<string>, ys: seq<string>, m: map<string, real>)
    requires forall i, j :: 0 <= i < j < |xs| ==> xs[i] != xs[j]
    requires forall i, j :: 0 <= i < j < |ys| ==> ys[i] != ys[j]
    requires forall c :: c in xs && c !in ys ==> TermOf(c, m) == 0.0
    requires forall c :: c in ys && c !in xs ==> TermOf(c, m) == 0.0
    ensures SumOver(xs, m) == SumOver(ys, m)
    decreases |xs|
  {
    if xs == [] {
      SumOverZero(ys, m);
    } else {
      var x := xs[0];
      assert forall c :: c in xs[1..] <==> c in xs && c != x by {
        forall c | c in xs && c != x ensures c in xs[1..] {
          var k :| 0 <= k < |xs| && xs[k] == c;
          assert xs[1..][k - 1] == c;
        }
      }
      if x in ys {
        var j :| 0 <= j < |ys| && ys[j] == x;
        SumOverRemoveAt(ys, j, m);
        RemoveAtMembers(ys, j);
        SumOverReorder(xs[1..], RemoveAt(ys, j), m);
      } else {
        SumOverReorder(xs[1..], ys, m);
      }
    }
  }

  /** The source sums over the categories in the order they were met; that
      is the base score. */
  lemma KeyOrderSumIsBase(order: seq<string>, m: map<string, real>)
    requires KeyOrder(order, m)
    ensures SumOver(order, m) == BaseScore(m)
  {
    forall c | c in order && c !in ACHIEVEMENT_CATEGORIES ensures TermOf(c, m) == 0.0 {
      UnknownTermIsZero(c, m);
    }
    CategoriesDistinct();
    SumOverReorder(order, ACHIEVEMENT_CATEGORIES, m);
  }

  /** A category outside the weight table adds nothing. */
  lemma UnknownTermIsZero(c: string, m: map<string, real>)
    requires c !in ACHIEVEMENT_CATEGORIES
    ensures TermOf(c, m) == 0.0
  {
    EngineWeightsMatchModel();
    assert c !in ENGINE_WEIGHTS;
  }

  lemma CategoriesDistinct()
    ensures forall i, j :: 0 <= i < j < |ACHIEVEMENT_CATEGORIES| ==> ACHIEVEMENT_CATEGORIES[i] != ACHIEVEMENT_CATEGORIES[j]
  {
    EngineWeightsMatchModel();
  }

  /** Best scores that are all positive give a non-negative base. */
  lemma {:induction false} SumOverNonNegative(cs: seq<string>, m: map<string, real>)
    requires forall c :: c in m ==> m[c] >= 0.0
    ensures SumOver(cs, m) >= 0.0
  {
    if cs != [] {
      EngineWeightIsWeight(cs[0]);
      SumOverNonNegative(cs[1..], m);
    }
  }

  // ---------------------------------------------------------------- score

  /** The CGPA bonus; a missing CGPA counts as 0. */
  function CgpaBonus(cgpa: Option<real>): (bonus: real)
    ensures bonus == 0.0 || bonus == 1.0 || bonus == 3.0 || bonus == 5.0
    ensures bonus > 0.0 <==> cgpa.Some? && cgpa.value >= 7.0
  {
    var g := cgpa.GetOr(0.0);
    if g >= 9.0 then 5.0 else if g >= 8.0 then 3.0 else if g >= 7.0 then 1.0 else 0.0
  }

  /** The bonus is one of 0, 1, 3, 5 and never drops when the CGPA rises. */
  lemma CgpaBonusMonotone(g1: real, g2: real)
    requires g1 <= g2
    ensures CgpaBonus(Some(g1)) <= CgpaBonus(Some(g2))
    ensures CgpaBonus(Some(g1)) in {0.0, 1.0, 3.0, 5.0}
    ensures CgpaBonus(None) == 0.0
  {
  }

  function Min(a: real, b: real): real
  {
    if a <= b then a else b
  }

  /** The achievements the score counts, in table order. */
  function Counted(rows: seq<Achievement>, student: UserId): (xs: seq<Achievement>)
    ensures forall a :: a in xs <==> a in rows && Eligible(a, student)
  {
    Filter(rows, a => Eligible(a, student))
  }

  lemma CountedSnoc(rows: seq<Achievement>, a: Achievement, student: UserId)
    ensures Counted(rows + [a], student) == if Eligible(a, student) then Counted(rows, student) + [a] else Counted(rows, student)
  {
    FilterSnoc(rows, a, x => Eligible(x, student));
  }

  /** `calculate_incoscore`, unrounded. */
  function IncoScore(rows: seq<Achievement>, student: UserId, cgpa: Option<real>): (score: real)
    ensures 0.0 <= score <= 100.0
  {
    var xs := Counted(rows, student);
    if xs == [] then 0.0
    else
      var m := Best(xs);
      BestSpec(xs);
      SumOverNonNegative(ACHIEVEMENT_CATEGORIES, m);
      Min(Min(BaseScore(m), 95.0) + CgpaBonus(cgpa), 100.0)
  }

  /** Without an eligible achievement the score is 0.0 whatever the CGPA; with
      one it is the capped base plus the bonus, clamped to 100. */
  lemma IncoScoreCases(rows: seq<Achievement>, student: UserId, cgpa: Option<real>)
    ensures (forall a :: a in rows ==> !Eligible(a, student)) ==> IncoScore(rows, student, cgpa) == 0.0
    ensures (exists a :: a in rows && Eligible(a, student)) ==>
              IncoScore(rows, student, cgpa) == Min(Min(BaseScore(Best(Counted(rows, student))), 95.0) + CgpaBonus(cgpa), 100.0)
  {
    var xs := Counted(rows, student);
    if xs != [] {
      assert xs[0] in xs;
    }
    if exists a :: a in rows && Eligible(a, student) {
      var a :| a in rows && Eligible(a, student);
      assert a in xs;
    }
  }

  /** Achievement order is irrelevant: rows with the same elements score the same. */
  lemma IncoScoreOrderIrrelevant(rows1: seq<Achievement>, rows2: seq<Achievement>, student: UserId, cgpa: Option<real>)
    requires forall a :: a in rows1 <==> a in rows2
    ensures IncoScore(rows1, student, cgpa) == IncoScore(rows2, student, cgpa)
  {
    var xs1, xs2 := Counted(rows1, student), Counted(rows2, student);
    BestDependsOnElementsOnly(xs1, xs2);
    if xs1 != [] {
      assert xs1[0] in xs2;
    }
    if xs2 != [] {
      assert xs2[0] in xs1;
    }
  }

  /** A new verified achievement that does not beat the best of its category
      leaves the score unchanged, and so does one that is not counted. */
  lemma IncoScoreIgnoresDominated(rows: seq<Achievement>, a: Achievement, student: UserId, cgpa: Option<real>)
    requires !Eligible(a, student) ||
             exists b :: b in rows && Eligible(b, student) && b.category == a.category && a.rawScore <= b.rawScore
    ensures IncoScore(rows + [a], student, cgpa) == IncoScore(rows, student, cgpa)
  {
    CountedSnoc(rows, a, student);
    if Eligible(a, student) {
      var b :| b in rows && Eligible(b, student) && b.category == a.category && a.rawScore <= b.rawScore;
      var xs := Counted(rows, student);
      assert b in xs;
      BestSpec(xs);
      BestOfDominated(xs, a);
    }
  }

  /** A single RESEARCH achievement scoring 100 gives 35 at CGPA 9.2 and 30 at CGPA 6.0. */
  lemma SingleResearchExample(a: Achievement, student: UserId)
    requires a.student == student && a.verified && a.category == "RESEARCH" && a.rawScore == 100.0
    ensures IncoScore([a], student, Some(9.2)) == 35.0
    ensures IncoScore([a], student, Some(6.0)) == 30.0
  {
    CountedSnoc([], a, student);
    assert [] + [a] == [a];
    BestSnoc([], a);
    var m := Best([a]);
    assert m == map["RESEARCH" := 100.0];
    EngineWeightIsWeight("RESEARCH");
    assert BaseScore(m) == 30.0 by {
      var cs := ACHIEVEMENT_CATEGORIES;
      SumOverAppend(cs[..1], cs[1..], m);
      assert cs == cs[..1] + cs[1..];
      SumOverZero(cs[1..], m);
    }
  }

  /** A base already capped at 95 plus the top bonus reaches exactly 100. */
  lemma CappedExample(rows: seq<Achievement>, student: UserId)
    requires exists a :: a in rows && Eligible(a, student)
    requires BaseScore(Best(Counted(rows, student))) >= 95.0
    ensures IncoScore(rows, student, Some(9.5)) == 100.0
    ensures IncoScore(rows, student, Some(8.0)) == 98.0
  {
    IncoScoreCases(rows, student, Some(9.5));
    IncoScoreCases(rows, student, Some(8.0));
  }

  /** Every category at 100 gives a base of 120, so the score at CGPA 9.5 is 100. */
  lemma AllCategoriesAtHundred(m: map<string, real>)
    requires forall c :: c in ACHIEVEMENT_CATEGORIES ==> c in m && m[c] == 100.0
    ensures BaseScore(m) == 120.0
  {
    var cs := ACHIEVEMENT_CATEGORIES;
    forall c | c in cs ensures TermOf(c, m) == Weight(c) * 100.0 {
      EngineWeightIsWeight(c);
    }
    SumOverIsWeightSum(cs, m);
    WeightsSumTo120();
  }

  lemma {:induction false} SumOverIsWeightSum(cs: seq<string>, m: map<string, real>)
    requires forall c :: c in cs ==> TermOf(c, m) == Weight(c) * 100.0
    ensures SumOver(cs, m) == WeightSum(cs) * 100.0
  {
    if cs != [] {
      assert forall c :: c in cs[1..] ==> c in cs;
      SumOverIsWeightSum(cs[1..], m);
    }
  }

  /** `calculate_incoscore`: the eligible achievements, the best score per
      category, the weighted sum over the categories met, the cap at 95, the
      CGPA bonus and the clamp to 100. */
  method CalculateIncoscore(rows: seq<Achievement>, profile: StudentProfile) returns (score: real)
    ensures score == IncoScore(rows, profile.user, profile.cgpa)
  {
    var achievements := Counted(rows, profile.user);
    if achievements == [] {
      return 0.0;
    }
    var categoryScores, order := BestPerCategory(achievements);
    var total := 0.0;
    for i := 0 to |order|
      invariant total == SumOver(order[..i], categoryScores)
    {
      assert order[..i + 1] == order[..i] + [order[i]];
      SumOverAppend(order[..i], [order[i]], categoryScores);
      total := total + Term(order[i], categoryScores[order[i]]);
    }
    assert order[..|order|] == order;
    KeyOrderSumIsBase(order, categoryScores);
    total := Min(total, 95.0);
    var cgpa := profile.cgpa.GetOr(0.0);
    if cgpa >= 9.0 {
      total := total + 5.0;
    } else if cgpa >= 8.0 {
      total := total + 3.0;
    } else if cgpa >= 7.0 {
      total := total + 1.0;
    }
    score := Min(total, 100.0);
  }

  // ---------------------------------------------------------------- update

  /** `update_student_score`: stores the recomputed score in every case, and
      records a history row with the new score and the old one exactly when
      the score changed. Once stored, the score equals the computed one, so a
      second call on unchanged data records nothing. */
  method UpdateStudentScore(profiles: ProfileTable, history: ScoreHistoryTable, rows: seq<Achievement>,
                            user: UserId, reason: string) returns (newScore: real)
    requires profiles.Valid() && user in profiles.rows
    modifies profiles, history
    ensures profiles.Valid()
    ensures newScore == IncoScore(rows, user, old(profiles.rows[user].cgpa))
    ensures profiles.rows == old(profiles.rows)[user := old(profiles.rows[user]).(incoscore := newScore)]
    ensures old(profiles.rows[user].incoscore) != newScore ==>
              history.rows == old(history.rows) + [ScoreEntry(user, newScore, HistoryReason(reason, old(profiles.rows[user].incoscore)))]
    ensures old(profiles.rows[user].incoscore) == newScore ==> history.rows == old(history.rows)
  {
    var profile := profiles.rows[user];
    var oldScore := profile.incoscore;
    newScore := CalculateIncoscore(rows, profile);
    profiles.SaveIncoscore(user, newScore);
    if oldScore != newScore {
      history.Record(ScoreEntry(user, newScore, HistoryReason(reason, oldScore)));
    }
  }

  /** Two updates in a row on unchanged achievements record at most one
      history row: the second finds the stored score already computed. */
  method UpdateTwice(profiles: ProfileTable, history: ScoreHistoryTable, rows: seq<Achievement>,
                     user: UserId, reason: string)
    requires profiles.Valid() && user in profiles.rows
    modifies profiles, history
    ensures profiles.Valid()
    ensures |history.rows| <= |old(history.rows)| + 1
  {
    var _ := UpdateStudentScore(profiles, history, rows, user, reason);
    var _ := UpdateStudentScore(profiles, history, rows, user, reason);
  }

  // ---------------------------------------------------------------- breakdown

  /** The 'weight' column: a percentage for a category, the word Bonus for the CGPA row. */
  datatype WeightLabel = Percent(n: int) | Bonus

  datatype BreakdownEntry = BreakdownEntry(rawScore: real, weight: WeightLabel, contribution: real, maxContribution: real)

  /** The breakdown row of one category of the weight table; `int()` of a
      positive weight times 100 is its floor. */
  function CategoryEntry(category: string, best: map<string, real>): BreakdownEntry
  {
    var raw := if category in best then best[category] else 0.0;
    var weight := EngineWeight(category);
    BreakdownEntry(raw, Percent((weight * 100.0).Floor), (raw / 100.0) * weight * 100.0, weight * 100.0)
  }

  /** The achievements the breakdown shows, in table order. */
  function Shown(rows: seq<Achievement>, student: UserId): (xs: seq<Achievement>)
    ensures forall a :: a in xs <==> a in rows && VerifiedFor(a, student)
  {
    Filter(rows, a => VerifiedFor(a, student))
  }

  /** The CGPA_BONUS row. */
  function BonusEntry(cgpa: Option<real>): BreakdownEntry
  {
    BreakdownEntry(cgpa.GetOr(0.0), Bonus, CgpaBonus(cgpa), 5.0)
  }

  /** `get_score_breakdown`: one row per weight-table category, in table order,
      from the best scores of the verified achievements, then the CGPA row. */
  function Breakdown(rows: seq<Achievement>, student: UserId, cgpa: Option<real>): (b: seq<(string, BreakdownEntry)>)
    ensures |b| == |ACHIEVEMENT_CATEGORIES| + 1
    ensures forall i :: 0 <= i < |ACHIEVEMENT_CATEGORIES| ==> b[i].0 == ACHIEVEMENT_CATEGORIES[i]
    ensures b[|b| - 1].0 == "CGPA_BONUS" && b[|b| - 1].1.contribution == CgpaBonus(cgpa)
  {
    EngineWeightsMatchModel();
    var best := Best(Shown(rows, student));
    seq(|ENGINE_ORDER|, i requires 0 <= i < |ENGINE_ORDER| => (ENGINE_ORDER[i], CategoryEntry(ENGINE_ORDER[i], best)))
    + [("CGPA_BONUS", BonusEntry(cgpa))]
  }

  /** Nine rows: the eight categories in order, then CGPA_BONUS. A category
      without a verified achievement shows raw 0 and contributes 0; the
      maximum is the weight times 100; the bonus row uses the score's tiers
      with a maximum of 5. */
  lemma BreakdownShape(rows: seq<Achievement>, student: UserId, cgpa: Option<real>)
    ensures var b := Breakdown(rows, student, cgpa);
            && |b| == 9
            && (forall i :: 0 <= i < 8 ==> b[i].0 == ACHIEVEMENT_CATEGORIES[i])
            && b[8] == ("CGPA_BONUS", BreakdownEntry(cgpa.GetOr(0.0), Bonus, CgpaBonus(cgpa), 5.0))
            && (forall i :: 0 <= i < 8 ==> b[i].1.maxContribution == Weight(b[i].0) * 100.0)
            && (forall i :: 0 <= i < 8 && (forall a :: a in rows && VerifiedFor(a, student) ==> a.category != b[i].0) ==>
                  b[i].1.rawScore == 0.0 && b[i].1.contribution == 0.0)
  {
    var best := Best(Shown(rows, student));
    EngineWeightsMatchModel();
    forall i | 0 <= i < 8 ensures Breakdown(rows, student, cgpa)[i].1.maxContribution == Weight(ENGINE_ORDER[i]) * 100.0 {
      EngineWeightIsWeight(ENGINE_ORDER[i]);
    }
    BestSpec(Shown(rows, student));
  }

  /** When every verified achievement of the student has a positive raw score
      and there is one, the score is the capped sum of the category
      contributions plus the bonus row, clamped to 100. */
  lemma BreakdownAddsUpToScore(rows: seq<Achievement>, student: UserId, cgpa: Option<real>)
    requires forall a :: a in rows && VerifiedFor(a, student) ==> a.rawScore > 0.0
    requires exists a :: a in rows && VerifiedFor(a, student)
    ensures var b := Breakdown(rows, student, cgpa);
            IncoScore(rows, student, cgpa) ==
            Min(Min(ContributionSum(b[..8]), 95.0) + b[8].1.contribution, 100.0)
  {
    var verified := Shown(rows, student);
    var eligible := Counted(rows, student);
    assert forall a :: a in verified <==> a in eligible;
    BestDependsOnElementsOnly(verified, eligible);
    IncoScoreCases(rows, student, cgpa);
    var best := Best(verified);
    var b := Breakdown(rows, student, cgpa);
    ContributionSumIsSumOver(b[..8], ACHIEVEMENT_CATEGORIES, best);
  }

  /** Sum of the contributions of breakdown rows. */
  function ContributionSum(entries: seq<(string, BreakdownEntry)>): real
  {
    if entries == [] then 0.0 else entries[0].1.contribution + ContributionSum(entries[1..])
  }

  lemma {:induction false} ContributionSumIsSumOver(entries: seq<(string, BreakdownEntry)>, cs: seq<string>, best: map<string, real>)
    requires |entries| == |cs|
    requires forall i :: 0 <= i < |cs| ==> entries[i].0 == cs[i] && entries[i].1 == CategoryEntry(cs[i], best)
    ensures ContributionSum(entries) == SumOver(cs, best)
  {
    if cs != [] {
      ContributionSumIsSumOver(entries[1..], cs[1..], best);
    }
  }

  /** The breakdown loop over the weight table. */
  method GetScoreBreakdown(rows: seq<Achievement>, profile: StudentProfile) returns (breakdown: seq<(string, BreakdownEntry)>)
    ensures breakdown == Breakdown(rows, profile.user, profile.cgpa)
  {
    var achievements := Shown(rows, profile.user);
    var categoryScores, _ := BestPerCategory(achievements);
    breakdown := [];
    for i := 0 to |ENGINE_ORDER|
      invariant |breakdown| == i
      invariant forall k :: 0 <= k < i ==> breakdown[k] == (ENGINE_ORDER[k], CategoryEntry(ENGINE_ORDER[k], categoryScores))
    {
      var cat := ENGINE_ORDER[i];
      breakdown := breakdown + [(cat, CategoryEntry(cat, categoryScores))];
    }
    breakdown := breakdown + [("CGPA_BONUS", BonusEntry(profile.cgpa))];
  }

  // ---------------------------------------------------------------- leaderboard

  /** Sorted by score, highest first. */
  predicate SortedDesc(ps: seq<StudentProfile>)
  {
    forall i, j :: 0 <= i < j < |ps| ==> ps[i].incoscore >= ps[j].incoscore
  }

  /** Insertion of one profile into a list sorted best first, before the
      first profile it is not below. */
  function Insert(p: StudentProfile, ps: seq<StudentProfile>): (r: seq<StudentProfile>)
    ensures |r| == |ps| + 1
  {
    if ps == [] || p.incoscore >= ps[0].incoscore then [p] + ps
    else [ps[0]] + Insert(p, ps[1..])
  }

  /** Insertion keeps a list sorted. */
  lemma {:induction false} InsertSorted(p: StudentProfile, ps: seq<StudentProfile>)
    requires SortedDesc(ps)
    ensures SortedDesc(Insert(p, ps))
    ensures Insert(p, ps)[0] == p || (ps != [] && Insert(p, ps)[0] == ps[0])
  {
    if ps != [] && p.incoscore < ps[0].incoscore {
      InsertSorted(p, ps[1..]);
      var rest := Insert(p, ps[1..]);
      assert ps[0].incoscore >= rest[0].incoscore;
    }
  }

  /** Insertion adds exactly the one profile. */
  lemma {:induction false} InsertMultiset(p: StudentProfile, ps: seq<StudentProfile>)
    ensures multiset(Insert(p, ps)) == multiset(ps) + multiset{p}
  {
    if ps != [] && p.incoscore < ps[0].incoscore {
      InsertMultiset(p, ps[1..]);
      assert ps == [ps[0]] + ps[1..];
    }
  }

  /** `order_by('-incoscore')`. */
  function SortByScore(ps: seq<StudentProfile>): (r: seq<StudentProfile>)
    ensures SortedDesc(r) && multiset(r) == multiset(ps)
  {
    if ps == [] then []
    else
      assert ps == [ps[0]] + ps[1..];
      InsertSorted(ps[0], SortByScore(ps[1..]));
      InsertMultiset(ps[0], SortByScore(ps[1..]));
      Insert(ps[0], SortByScore(ps[1..]))
  }

  /** The profiles with a positive score, in table order. */
  function Ranked(profiles: seq<StudentProfile>): (ps: seq<StudentProfile>)
    ensures forall p :: p in ps <==> p in profiles && p.incoscore > 0.0
  {
    Filter(profiles, (p: StudentProfile) => p.incoscore > 0.0)
  }

  /** `get_leaderboard(limit)`: profiles with a positive score, best first,
      each as often as it is stored, `limit` of them or all when fewer. */
  function Leaderboard(profiles: seq<StudentProfile>, limit: nat): (board: seq<StudentProfile>)
    ensures |board| <= limit
    ensures |board| == if limit < |Ranked(profiles)| then limit else |Ranked(profiles)|
    ensures multiset(board) <= multiset(Ranked(profiles))
    ensures forall p :: p in board ==> p in profiles && p.incoscore > 0.0
  {
    var s := SortByScore(Ranked(profiles));
    SortByScoreMembers(Ranked(profiles));
    PrefixMembers(s, limit);
    Prefix(s, limit)
  }

  /** The leaderboard shows only positive scores, best first, no profile more
      often than it is stored, `limit` of them or all when fewer; every
      positive profile left out scores no higher than any profile shown, and
      with fewer than `limit` shown none is left out. */
  lemma LeaderboardSpec(profiles: seq<StudentProfile>, limit: nat)
    ensures var r := Leaderboard(profiles, limit);
            && |r| <= limit && SortedDesc(r)
            && |r| == (if limit < |Ranked(profiles)| then limit else |Ranked(profiles)|)
            && multiset(r) <= multiset(Ranked(profiles))
            && (forall p :: p in r ==> p in profiles && p.incoscore > 0.0)
            && (forall p, i :: p in profiles && p.incoscore > 0.0 && p !in r && 0 <= i < |r| ==> p.incoscore <= r[i].incoscore)
            && (|r| < limit ==> forall p :: p in profiles && p.incoscore > 0.0 ==> p in r)
  {
    var pos := Ranked(profiles);
    var s := SortByScore(pos);
    SortByScoreMembers(pos);
    SortedPrefix(s, limit);
  }

  /** Sorting keeps exactly the same profiles. */
  lemma SortByScoreMembers(ps: seq<StudentProfile>)
    ensures forall p :: p in SortByScore(ps) <==> p in ps
  {
    var s := SortByScore(ps);
    forall p ensures p in s <==> p in ps {
      assert p in s <==> p in multiset(s);
      assert p in ps <==> p in multiset(ps);
    }
  }

  /** The first `n` of a list sorted best first: still sorted, taken from the
      list, no lower than anything left out, and everything when fewer than
      `n` are taken. */
  lemma SortedPrefix(s: seq<StudentProfile>, n: nat)
    requires SortedDesc(s)
    ensures var r := Prefix(s, n);
            && SortedDesc(r)
            && (forall p :: p in r ==> p in s)
            && (forall p, i :: p in s && p !in r && 0 <= i < |r| ==> p.incoscore <= r[i].incoscore)
            && (|r| < n ==> r == s)
  {
    var r := Prefix(s, n);
    assert forall i :: 0 <= i < |r| ==> r[i] == s[i];
    forall p, i | p in s && p !in r && 0 <= i < |r|
      ensures p.incoscore <= r[i].incoscore
    {
      var k :| 0 <= k < |s| && s[k] == p;
      assert k >= |r|;
    }
  }

  // ---------------------------------------------------------------- recommendations

  /** The opportunity types offered at a score: the most competitive from 70 up,
      a middle tier from 40 up, introductory ones below. */
  function TypesFor(score: real): (types: seq<string>)
    ensures "INTERNSHIP" in types <==> score >= 40.0
    ensures "FELLOWSHIP" in types <==> score >= 70.0
    ensures "SCHOLARSHIP" in types <==> score >= 70.0
    ensures "CONFERENCE" in types <==> score < 40.0
    ensures "WORKSHOP" in types <==> score < 70.0
    ensures "HACKATHON" in types <==> score < 70.0
    ensures "COMPETITION" !in types && "OTHER" !in types
    ensures forall t :: t in types ==> t in OPPORTUNITY_TYPES
  {
    if score >= 70.0 then ["FELLOWSHIP", "SCHOLARSHIP", "INTERNSHIP"]
    else if score >= 40.0 then ["WORKSHOP", "HACKATHON", "INTERNSHIP"]
    else ["WORKSHOP", "HACKATHON", "CONFERENCE"]
  }

  /** Passes the recommendation filters for this profile. */
  predicate Recommendable(o: Opportunity, p: StudentProfile)
  {
    o.isActive && (p.domains == [] || o.domain in p.domains) && o.opportunityType in TypesFor(p.incoscore)
  }

  /** The opportunities passing the filters, in table order. */
  function Matching(p: StudentProfile, opportunities: seq<Opportunity>): (os: seq<Opportunity>)
    ensures forall o :: o in os <==> o in opportunities && Recommendable(o, p)
  {
    Filter(opportunities, o => Recommendable(o, p))
  }

  /** `get_recommendations(profile, limit)`: the first `limit` matches of
      `opportunities`, which is the table in its default ordering (newest
      scraped first). Every recommendation is active, in one of the
      student's domains when the student has any, of a type of the student's
      tier, and stored, each no more often than it matches; `limit` are
      given or every match when fewer, so with fewer than `limit` every
      matching opportunity is given. */
  function Recommendations(p: StudentProfile, opportunities: seq<Opportunity>, limit: nat): (r: seq<Opportunity>)
    ensures |r| <= limit
    ensures |r| == if limit < |Matching(p, opportunities)| then limit else |Matching(p, opportunities)|
    ensures multiset(r) <= multiset(Matching(p, opportunities))
    ensures forall o :: o in r ==> o in opportunities && o.isActive && o.opportunityType in TypesFor(p.incoscore)
    ensures forall o :: o in r && p.domains != [] ==> o.domain in p.domains
    ensures |r| < limit ==> forall o :: o in opportunities && Recommendable(o, p) ==> o in r
  {
    var all := Matching(p, opportunities);
    PrefixMembers(all, limit);
    Prefix(all, limit)
  }
}
