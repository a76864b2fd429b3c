/** The achievement records (ivy_intelligence/apps/incoscore/models.py): the
    category, weight and maximum-points tables, the Achievement row and its
    contribution to the InCoScore, and the score-history row. Scores are
    exact reals; the rounding to two places is not modelled. */
module Achievements {
  import opened Wrappers
  import opened Profiles

  /** ACHIEVEMENT_CATEGORIES codes, in declaration order. */
  const ACHIEVEMENT_CATEGORIES: seq<string> :=
    ["RESEARCH", "HACKATHON", "INTERNSHIP", "CODING", "CONFERENCE", "CERTIFICATION", "PROJECT", "AWARD"]

  /** CATEGORY_WEIGHTS of the model module. */
  const CATEGORY_WEIGHTS: map<string, real> := map[
    "RESEARCH" := 0.30, "HACKATHON" := 0.25, "INTERNSHIP" := 0.20, "CODING" := 0.15,
    "CONFERENCE" := 0.10, "CERTIFICATION" := 0.05, "PROJECT" := 0.05, "AWARD" := 0.10]

  /** CATEGORY_MAX_POINTS. */
  const CATEGORY_MAX_POINTS: map<string, real> := map[
    "RESEARCH" := 100.0, "HACKATHON" := 100.0, "INTERNSHIP" := 100.0, "CODING" := 100.0,
    "CONFERENCE" := 100.0, "CERTIFICATION" := 100.0, "PROJECT" := 100.0, "AWARD" := 100.0]

  /** `CATEGORY_WEIGHTS.get(category, 0)` */
  function Weight(category: string): (w: real)
    ensures 0.0 <= w <= 0.30
    ensures category !in CATEGORY_WEIGHTS ==> w == 0.0
  {
    if category in CATEGORY_WEIGHTS then CATEGORY_WEIGHTS[category] else 0.0
  }

  /** `CATEGORY_MAX_POINTS.get(category, 100)`: 100 for every category, known or not. */
  function MaxPoints(category: string): (m: real)
    ensures m == 100.0
  {
    if category in CATEGORY_MAX_POINTS then CATEGORY_MAX_POINTS[category] else 100.0
  }

  /** The weight table is keyed by exactly the eight categories. */
  lemma WeightKeysAreCategories()
    ensures CATEGORY_WEIGHTS.Keys == set c | c in ACHIEVEMENT_CATEGORIES
    ensures CATEGORY_MAX_POINTS.Keys == CATEGORY_WEIGHTS.Keys
  {
  }

  /** Sum of the weights of the listed categories. */
  function WeightSum(categories: seq<string>): real
  {
    if categories == [] then 0.0 else Weight(categories[0]) + WeightSum(categories[1..])
  }

  /** The weights add up to 1.20, not to 1.0. */
  lemma WeightsSumTo120()
    ensures WeightSum(ACHIEVEMENT_CATEGORIES) == 1.20
  {
    var cs := ACHIEVEMENT_CATEGORIES;
    assert WeightSum(cs[7..]) == 0.10;
    assert cs[6..][1..] == cs[7..];
    assert WeightSum(cs[6..]) == 0.15;
    assert cs[5..][1..] == cs[6..];
    assert WeightSum(cs[5..]) == 0.20;
    assert cs[4..][1..] == cs[5..];
    assert WeightSum(cs[4..]) == 0.30;
    assert cs[3..][1..] == cs[4..];
    assert WeightSum(cs[3..]) == 0.45;
    assert cs[2..][1..] == cs[3..];
    assert WeightSum(cs[2..]) == 0.65;
    assert cs[1..][1..] == cs[2..];
    assert WeightSum(cs[1..]) == 0.90;
  }

  datatype Achievement = Achievement(
    id: nat,
    student: UserId,
    category: string,
    title: string,
    description: string,
    proofUrl: string,
    rawScore: real,
    verified: bool,
    verifiedBy: string)

  /** A row created without the defaulted fields: raw score 10.0, not verified, no verifier. */
  function NewAchievement(id: nat, student: UserId, category: string, title: string, description: string, proofUrl: string): (a: Achievement)
    ensures a.rawScore == 10.0 && !a.verified && a.verifiedBy == ""
    ensures a.id == id && a.student == student && a.category == category
    ensures a.title == title && a.description == description && a.proofUrl == proofUrl
  {
    Achievement(id, student, category, title, description, proofUrl, 10.0, false, "")
  }

  /** The points one achievement of `category` with `raw` points brings,
      before rounding: raw / max_points * weight * 100. */
  function Contribution(category: string, raw: real): real
  {
    (raw / MaxPoints(category)) * Weight(category) * 100.0
  }

  /** `Achievement.contribution_to_incoscore`, unrounded. */
  function ContributionToIncoscore(a: Achievement): (c: real)
    ensures c == a.rawScore * Weight(a.category)
    ensures 0.0 <= a.rawScore <= 100.0 ==> 0.0 <= c <= Weight(a.category) * 100.0
  {
    ContributionIsWeighted(a.category, a.rawScore);
    Contribution(a.category, a.rawScore)
  }

  /** With every maximum at 100 the contribution is raw * weight: the engine's
      per-category term. An unknown category contributes nothing. */
  lemma ContributionIsWeighted(category: string, raw: real)
    ensures Contribution(category, raw) == raw * Weight(category)
    ensures category !in CATEGORY_WEIGHTS ==> Contribution(category, raw) == 0.0
  {
  }

  /** For raw scores in [0, 100] the contribution lies in [0, weight * 100]. */
  lemma ContributionBounds(category: string, raw: real)
    requires 0.0 <= raw <= 100.0
    ensures 0.0 <= Contribution(category, raw) <= Weight(category) * 100.0
  {
    ContributionIsWeighted(category, raw);
  }

  /** A higher raw score never contributes less. */
  lemma ContributionMonotone(category: string, raw1: real, raw2: real)
    requires raw1 <= raw2
    ensures Contribution(category, raw1) <= Contribution(category, raw2)
  {
    ContributionIsWeighted(category, raw1);
    ContributionIsWeighted(category, raw2);
  }

  /** The reason recorded with a score change: the caller's reason and the
      previous score, rendered as "<reason> (was <old>)" by the source. */
  datatype HistoryReason = HistoryReason(reason: string, was: real)

  /** One ScoreHistory row. */
  datatype ScoreEntry = ScoreEntry(student: UserId, score: real, reason: HistoryReason)

  /** The ScoreHistory table, in insertion order. */
  class ScoreHistoryTable {
    var rows: seq<ScoreEntry>

    constructor ()
      ensures rows == []
    {
      rows := [];
    }

    method Record(entry: ScoreEntry)
      modifies this
      ensures rows == old(rows) + [entry]
    {
      rows := rows + [entry];
    }
  }

  /** Primary keys are distinct and below the next one. */
  predicate IdsDistinct(rows: seq<Achievement>, nextId: nat)
  {
    && (forall i :: 0 <= i < |rows| ==> rows[i].id < nextId)
    && (forall i, j :: 0 <= i < j < |rows| ==> rows[i].id != rows[j].id)
  }

  /** The position of the row with primary key `id`, if any. */
  function IndexOf(rows: seq<Achievement>, id: nat): (r: Option<nat>)
    ensures r.Some? ==> r.value < |rows| && rows[r.value].id == id
    ensures r.None? ==> forall i :: 0 <= i < |rows| ==> rows[i].id != id
  {
    if rows == [] then None
    else if rows[|rows| - 1].id == id then Some(|rows| - 1)
    else IndexOf(rows[..|rows| - 1], id)
  }

  /** The Achievement table, in insertion order. */
  class AchievementTable {
    var rows: seq<Achievement>
    var nextId: nat

    ghost predicate Valid()
      reads this
    {
      IdsDistinct(rows, nextId)
    }

    constructor ()
      ensures Valid() && rows == [] && nextId == 1
    {
      rows := [];
      nextId := 1;
    }

    /** `Achievement.objects.create(...)`: the row gets the next primary key. */
    method Create(a: Achievement) returns (id: nat)
      requires Valid()
      modifies this
      ensures Valid()
      ensures id == old(nextId) && rows == old(rows) + [a.(id := id)] && nextId == old(nextId) + 1
    {
      id := nextId;
      rows := rows + [a.(id := id)];
      nextId := nextId + 1;
    }

    /** `achievement.save()` for the row at `i`: the row is replaced, its key kept. */
    method Update(i: nat, a: Achievement)
      requires Valid() && i < |rows| && a.id == rows[i].id
      modifies this
      ensures Valid()
      ensures rows == old(rows)[i := a] && nextId == old(nextId)
    {
      rows := rows[i := a];
    }

    /** `achievement.delete()` for the row at `i`: the other rows keep their order. */
    method Delete(i: nat)
      requires Valid() && i < |rows|
      modifies this
      ensures Valid()
      ensures rows == old(rows)[..i] + old(rows)[i + 1..] && nextId == old(nextId)
    {
      rows := rows[..i] + rows[i + 1..];
    }
  }
}
