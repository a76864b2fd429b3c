/** The achievement pages (ivy_intelligence/apps/incoscore/views.py): the
    dashboard with its counts and its fallback, adding an achievement and
    deleting one. Flash messages, redirects and templates are not modelled;
    each view returns what it decided. */
module ScoreViews {
  import opened Wrappers
  import opened Text
  import opened Profiles
  import opened Achievements
  import opened Engine
  import opened OpportunityModels

  /** The outcome of `add_achievement` on a POST. */
  datatype AddOutcome = MissingFields | Added(id: nat)

  /** `add_achievement` on a POST with the given form fields: the profile is
      fetched or created; a title that is blank after stripping, or an empty
      category, creates nothing; otherwise an unverified achievement of the
      caller with the stripped title and the default raw score is created. */
  method AddAchievement(achievements: AchievementTable, profiles: ProfileTable, user: UserId,
                        title: string, category: string, description: string, proofUrl: string) returns (outcome: AddOutcome)
    requires achievements.Valid() && profiles.Valid()
    modifies achievements, profiles
    ensures achievements.Valid() && profiles.Valid()
    ensures user in profiles.rows && profiles.rows.Keys == old(profiles.rows.Keys) + {user}
    ensures profiles.rows == old(profiles.rows)[user := ProfileOf(old(profiles.rows), user)]
    ensures outcome.MissingFields? <==> Strip(title) == "" || category == ""
    ensures outcome.MissingFields? ==> achievements.rows == old(achievements.rows) && achievements.nextId == old(achievements.nextId)
    ensures outcome.Added? ==>
              outcome.id == old(achievements.nextId) &&
              achievements.rows == old(achievements.rows) + [NewAchievement(outcome.id, user, category, Strip(title), description, proofUrl)]
  {
    var _, _ := profiles.GetOrCreate(user);
    var stripped := Strip(title);
    if stripped == "" || category == "" {
      return MissingFields;
    }
    var id := achievements.Create(NewAchievement(0, user, category, stripped, description, proofUrl));
    outcome := Added(id);
  }

  /** A created achievement belongs to the caller, is not verified, scores
      the default 10 and has a title that stripping leaves unchanged. */
  lemma AddedIsUnverified(user: UserId, id: nat, category: string, title: string, description: string, proofUrl: string)
    ensures var a := NewAchievement(id, user, category, Strip(title), description, proofUrl);
            a.student == user && !a.verified && a.rawScore == 10.0 && Strip(a.title) == a.title
  {
    StripStripped(Strip(title));
  }

  /** The outcome of `delete_achievement`. */
  datatype DeleteOutcome = NotFound | CannotDeleteVerified | Deleted

  /** The position of the caller's achievement with key `id`, if any. */
  function OwnIndex(rows: seq<Achievement>, id: nat, user: UserId): (r: Option<nat>)
    ensures r.Some? ==> r.value < |rows| && rows[r.value].id == id && rows[r.value].student == user
    ensures r.None? ==> forall i :: 0 <= i < |rows| ==> rows[i].id != id || rows[i].student != user
  {
    if rows == [] then None
    else if rows[|rows| - 1].id == id && rows[|rows| - 1].student == user then Some(|rows| - 1)
    else OwnIndex(rows[..|rows| - 1], id, user)
  }

  /** `delete_achievement`: only the caller's own achievement is found; a
      verified one is kept; an unverified one is deleted. */
  method DeleteAchievement(achievements: AchievementTable, profiles: ProfileTable, user: UserId, id: nat) returns (outcome: DeleteOutcome)
    requires achievements.Valid() && profiles.Valid()
    modifies achievements, profiles
    ensures achievements.Valid() && profiles.Valid()
    ensures user in profiles.rows && profiles.rows.Keys == old(profiles.rows.Keys) + {user}
    ensures profiles.rows == old(profiles.rows)[user := ProfileOf(old(profiles.rows), user)]
    ensures var i := OwnIndex(old(achievements.rows), id, user);
            && (outcome == NotFound <==> i.None?)
            && (outcome == CannotDeleteVerified <==> i.Some? && old(achievements.rows)[i.value].verified)
            && (outcome == Deleted <==> i.Some? && !old(achievements.rows)[i.value].verified)
            && (outcome == Deleted ==> achievements.rows == old(achievements.rows)[..i.value] + old(achievements.rows)[i.value + 1..])
            && (outcome != Deleted ==> achievements.rows == old(achievements.rows))
  {
    var _, _ := profiles.GetOrCreate(user);
    var found := OwnIndex(achievements.rows, id, user);
    if found.None? {
      return NotFound;
    }
    if achievements.rows[found.value].verified {
      return CannotDeleteVerified;
    }
    achievements.Delete(found.value);
    outcome := Deleted;
  }

  /** Deleting never removes a verified achievement or another student's one:
      the rows kept are the old rows without one unverified row of the caller. */
  lemma DeleteKeepsVerified(rows: seq<Achievement>, i: nat, user: UserId)
    requires i < |rows| && rows[i].student == user && !rows[i].verified
    ensures forall a :: a in rows && (a.verified || a.student != user) ==> a in rows[..i] + rows[i + 1..]
  {
    forall a | a in rows && (a.verified || a.student != user) ensures a in rows[..i] + rows[i + 1..] {
      var k :| 0 <= k < |rows| && rows[k] == a;
      if k < i {
        assert (rows[..i] + rows[i + 1..])[k] == a;
      } else {
        assert (rows[..i] + rows[i + 1..])[k - 1] == a;
      }
    }
  }

  /** What the dashboard shows: the two counts, the breakdown and the
      recommendations (empty after a failure). */
  datatype Dashboard = Dashboard(
    verifiedCount: nat,
    pendingCount: nat,
    breakdown: seq<(string, BreakdownEntry)>,
    recommendations: seq<Opportunity>)

  /** The number of the caller's achievements with the given verified flag. */
  function CountVerified(rows: seq<Achievement>, user: UserId, verified: bool): (n: nat)
    ensures n <= CountOwn(rows, user)
  {
    if rows == [] then 0
    else CountVerified(rows[..|rows| - 1], user, verified) +
         (if rows[|rows| - 1].student == user && rows[|rows| - 1].verified == verified then 1 else 0)
  }

  function CountOwn(rows: seq<Achievement>, user: UserId): nat
  {
    if rows == [] then 0 else CountOwn(rows[..|rows| - 1], user) + (if rows[|rows| - 1].student == user then 1 else 0)
  }

  /** Verified plus pending is every achievement of the student. */
  lemma {:induction false} CountsPartition(rows: seq<Achievement>, user: UserId)
    ensures CountVerified(rows, user, true) + CountVerified(rows, user, false) == CountOwn(rows, user)
  {
    if rows != [] {
      CountsPartition(rows[..|rows| - 1], user);
    }
  }

  /** The profile `get_or_create` returns: the stored one, or a new one. */
  function ProfileOf(rows: map<UserId, StudentProfile>, user: UserId): StudentProfile
  {
    if user in rows then rows[user] else NewProfile(user)
  }

  /** What a score update of `user`, whose profile was `p`, to `score` leaves
      behind: the profile table `before` with `p` holding the new score, and
      a history row with reason "Dashboard visit" exactly when the score
      changed. */
  ghost predicate VisitStored(user: UserId, p: StudentProfile, score: real,
                              before: map<UserId, StudentProfile>, after: map<UserId, StudentProfile>,
                              historyBefore: seq<ScoreEntry>, historyAfter: seq<ScoreEntry>)
  {
    && after == before[user := p.(incoscore := score)]
    && (p.incoscore != score ==>
          historyAfter == historyBefore + [ScoreEntry(user, score, HistoryReason("Dashboard visit", p.incoscore))])
    && (p.incoscore == score ==> historyAfter == historyBefore)
  }

  /** What a dashboard visit by `user` with profile `p` leaves behind: the
      breakdown and at most 5 recommendations for `p`, and the profile and
      history updated with the recomputed score. */
  ghost predicate Visited(achievements: seq<Achievement>, opportunities: seq<Opportunity>, user: UserId, p: StudentProfile,
                          before: map<UserId, StudentProfile>, after: map<UserId, StudentProfile>,
                          historyBefore: seq<ScoreEntry>, historyAfter: seq<ScoreEntry>,
                          breakdown: seq<(string, BreakdownEntry)>, recommendations: seq<Opportunity>)
  {
    && breakdown == Breakdown(achievements, user, p.cgpa)
    && recommendations == Recommendations(p, opportunities, 5)
    && VisitStored(user, p, IncoScore(achievements, user, p.cgpa), before, after, historyBefore, historyAfter)
  }

  /** An update on a table that already held `p` for `user` is an update on
      the table before `p` was stored. */
  lemma VisitStoredRebase(user: UserId, p: StudentProfile, score: real,
                          before: map<UserId, StudentProfile>, after: map<UserId, StudentProfile>,
                          historyBefore: seq<ScoreEntry>, historyAfter: seq<ScoreEntry>)
    requires VisitStored(user, p, score, before[user := p], after, historyBefore, historyAfter)
    ensures VisitStored(user, p, score, before, after, historyBefore, historyAfter)
  {
    assert before[user := p][user := p.(incoscore := score)] == before[user := p.(incoscore := score)];
  }

  /** The `try` block of `incoscore_dashboard` on the caller's stored
      profile: the breakdown and at most 5 recommendations for that profile,
      then a score update with reason "Dashboard visit". */
  method DashboardVisit(achievements: AchievementTable, profiles: ProfileTable, history: ScoreHistoryTable,
                        opportunities: seq<Opportunity>, user: UserId)
    returns (breakdown: seq<(string, BreakdownEntry)>, recommendations: seq<Opportunity>)
    requires profiles.Valid() && user in profiles.rows
    modifies profiles, history
    ensures profiles.Valid()
    ensures Visited(achievements.rows, opportunities, user, old(profiles.rows)[user], old(profiles.rows), profiles.rows,
                    old(history.rows), history.rows, breakdown, recommendations)
  {
    var p := profiles.rows[user];
    breakdown := GetScoreBreakdown(achievements.rows, p);
    recommendations := Recommendations(p, opportunities, 5);
    var _ := UpdateStudentScore(profiles, history, achievements.rows, user, "Dashboard visit");
  }

  /** `incoscore_dashboard`: the profile is fetched or created; then the
      breakdown, the recommendations (at most 5) and an update with reason
      "Dashboard visit" are computed from the profile as fetched. When that
      block raises (`fails`), the breakdown and the recommendations are empty
      and the score is not updated. The counts split the caller's achievements. */
  method IncoscoreDashboard(achievements: AchievementTable, profiles: ProfileTable, history: ScoreHistoryTable,
                            opportunities: seq<Opportunity>, user: UserId, fails: bool) returns (view: Dashboard)
    requires profiles.Valid()
    modifies profiles, history
    ensures profiles.Valid() && user in profiles.rows
    ensures view.verifiedCount == CountVerified(achievements.rows, user, true)
    ensures view.pendingCount == CountVerified(achievements.rows, user, false)
    ensures view.verifiedCount + view.pendingCount == CountOwn(achievements.rows, user)
    ensures fails ==> view.breakdown == [] && view.recommendations == [] && history.rows == old(history.rows)
    ensures fails ==> profiles.rows == old(profiles.rows)[user := ProfileOf(old(profiles.rows), user)]
    ensures !fails ==> Visited(achievements.rows, opportunities, user, ProfileOf(old(profiles.rows), user),
                               old(profiles.rows), profiles.rows, old(history.rows), history.rows,
                               view.breakdown, view.recommendations)
  {
    ghost var p := ProfileOf(profiles.rows, user);
    var _, _ := profiles.GetOrCreate(user);
    var breakdown: seq<(string, BreakdownEntry)> := [];
    var recommendations: seq<Opportunity> := [];
    if !fails {
      breakdown, recommendations := DashboardVisit(achievements, profiles, history, opportunities, user);
      VisitStoredRebase(user, p, IncoScore(achievements.rows, user, p.cgpa), old(profiles.rows), profiles.rows,
                        old(history.rows), history.rows);
    }
    CountsPartition(achievements.rows, user);
    view := Dashboard(CountVerified(achievements.rows, user, true), CountVerified(achievements.rows, user, false),
                      breakdown, recommendations);
  }
}
