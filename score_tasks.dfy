/** The background score jobs (ivy_intelligence/apps/incoscore/tasks.py): the
    nightly recalculation of every profile and the automatic verification of
    an achievement from the status of its proof link. The HEAD request is a
    parameter: `None` when it raises, `Some(status)` otherwise. */
module ScoreTasks {
  import opened Wrappers
  import opened Profiles
  import opened Achievements
  import opened Engine

  /** Repetition-free. */
  predicate Distinct(users: seq<UserId>)
  {
    forall i, j :: 0 <= i < j < |users| ==> users[i] != users[j]
  }

  /** The number of listed profiles whose update does not raise. */
  function Succeeding(users: seq<UserId>, fails: set<UserId>): (n: nat)
    ensures n <= |users|
  {
    if users == [] then 0
    else Succeeding(users[..|users| - 1], fails) + (if users[|users| - 1] in fails then 0 else 1)
  }

  /** The profiles after the listed users were recalculated in turn; a user
      whose update raises keeps the stored row. */
  function Recalculated(m: map<UserId, StudentProfile>, rows: seq<Achievement>, users: seq<UserId>, fails: set<UserId>): (r: map<UserId, StudentProfile>)
    requires forall u :: u in users ==> u in m
    ensures r.Keys == m.Keys
  {
    if users == [] then m
    else
      var r := Recalculated(m, rows, users[..|users| - 1], fails);
      var u := users[|users| - 1];
      if u in fails then r else r[u := r[u].(incoscore := IncoScore(rows, u, r[u].cgpa))]
  }

  /** The history rows those updates record, in order: one per user whose
      score changed. */
  function RecalculationHistory(m: map<UserId, StudentProfile>, rows: seq<Achievement>, users: seq<UserId>, fails: set<UserId>): seq<ScoreEntry>
    requires forall u :: u in users ==> u in m
  {
    if users == [] then []
    else
      var h := RecalculationHistory(m, rows, users[..|users| - 1], fails);
      var u := users[|users| - 1];
      var score := IncoScore(rows, u, m[u].cgpa);
      if u in fails || m[u].incoscore == score then h
      else h + [ScoreEntry(u, score, HistoryReason("Nightly recalculation", m[u].incoscore))]
  }

  /** A user not yet visited keeps the stored row. */
  lemma {:induction false} RecalculatedOther(m: map<UserId, StudentProfile>, rows: seq<Achievement>, users: seq<UserId>, fails: set<UserId>, u: UserId)
    requires forall v :: v in users ==> v in m
    requires u in m && u !in users
    ensures Recalculated(m, rows, users, fails)[u] == m[u]
  {
    if users != [] {
      RecalculatedOther(m, rows, users[..|users| - 1], fails, u);
    }
  }

  /** After the run every profile whose update did not raise holds its
      computed score, and every other column and profile is as it was. */
  lemma {:induction false} RecalculatedSpec(m: map<UserId, StudentProfile>, rows: seq<Achievement>, users: seq<UserId>, fails: set<UserId>)
    requires forall v :: v in users ==> v in m
    requires Distinct(users)
    ensures var r := Recalculated(m, rows, users, fails);
            forall u :: u in m ==>
              r[u] == if u in users && u !in fails then m[u].(incoscore := IncoScore(rows, u, m[u].cgpa)) else m[u]
  {
    if users != [] {
      var init, u := users[..|users| - 1], users[|users| - 1];
      assert forall v :: v in init ==> v in users;
      assert u !in init by {
        forall k | 0 <= k < |init| ensures init[k] != u {
          assert users[k] != users[|users| - 1];
        }
      }
      RecalculatedSpec(m, rows, init, fails);
      RecalculatedOther(m, rows, init, fails, u);
    }
  }

  /** A second run on unchanged data and without failures records nothing. */
  lemma {:induction false} RecalculationSettles(m: map<UserId, StudentProfile>, rows: seq<Achievement>, users: seq<UserId>, all: seq<UserId>)
    requires forall v :: v in all ==> v in m
    requires Distinct(all)
    requires forall v :: v in users ==> v in all
    ensures RecalculationHistory(Recalculated(m, rows, all, {}), rows, users, {}) == []
  {
    if users != [] {
      RecalculationSettles(m, rows, users[..|users| - 1], all);
      RecalculatedSpec(m, rows, all, {});
      assert users[|users| - 1] in all;
    }
  }

  /** `recalculate_all_scores`: every profile, in the order listed, gets
      `update_student_score` with reason "Nightly recalculation"; a profile
      whose update raises is skipped and the loop goes on. The count
      returned is the number of updates that did not raise. */
  method RecalculateAllScores(profiles: ProfileTable, history: ScoreHistoryTable, rows: seq<Achievement>,
                              users: seq<UserId>, fails: set<UserId>) returns (updated: nat)
    requires profiles.Valid()
    requires Distinct(users) && forall u :: u in profiles.rows <==> u in users
    modifies profiles, history
    ensures profiles.Valid()
    ensures updated == Succeeding(users, fails) && updated <= |users|
    ensures profiles.rows == Recalculated(old(profiles.rows), rows, users, fails)
    ensures history.rows == old(history.rows) + RecalculationHistory(old(profiles.rows), rows, users, fails)
  {
    ghost var m := profiles.rows;
    ghost var h := history.rows;
    updated := 0;
    for i := 0 to |users|
      invariant profiles.Valid()
      invariant forall u :: u in users[..i] ==> u in m
      invariant updated == Succeeding(users[..i], fails)
      invariant profiles.rows == Recalculated(m, rows, users[..i], fails)
      invariant history.rows == h + RecalculationHistory(m, rows, users[..i], fails)
    {
      var u := users[i];
      assert users[..i + 1][..i] == users[..i] && users[..i + 1][i] == u;
      assert forall v :: v in users[..i + 1] ==> v in m;
      assert u !in users[..i] by {
        forall k | 0 <= k < i ensures users[k] != u {
        }
      }
      RecalculatedOther(m, rows, users[..i], fails, u);
      if u !in fails {
        var _ := UpdateStudentScore(profiles, history, rows, u, "Nightly recalculation");
        updated := updated + 1;
      }
    }
    assert users[..|users|] == users;
  }

  /** `verify_achievement(id)`: the achievement is marked verified by
      "AutoVerify", and its owner's score updated with reason "Achievement
      verified: <title>", exactly when it exists, has a proof link, and the
      HEAD request on that link answers 200. In every other case (missing id,
      no link, another status, a request that raises) nothing changes. The
      achievement is saved before the score update; when that update raises
      (`fails`) the error is swallowed, so the achievement stays verified and
      the profile and the history are as they were. */
  method VerifyAchievement(achievements: AchievementTable, profiles: ProfileTable, history: ScoreHistoryTable,
                           id: nat, head: Option<int>, fails: bool) returns (marked: bool)
    requires achievements.Valid() && profiles.Valid()
    requires forall a :: a in achievements.rows ==> a.student in profiles.rows
    modifies achievements, profiles, history
    ensures achievements.Valid() && profiles.Valid()
    ensures marked <==> IndexOf(old(achievements.rows), id).Some? &&
                        old(achievements.rows)[IndexOf(old(achievements.rows), id).value].proofUrl != "" && head == Some(200)
    ensures !marked ==> achievements.rows == old(achievements.rows) && profiles.rows == old(profiles.rows) &&
                        history.rows == old(history.rows)
    ensures marked ==>
              var i := IndexOf(old(achievements.rows), id).value;
              var a := old(achievements.rows)[i];
              var score := IncoScore(achievements.rows, a.student, old(profiles.rows)[a.student].cgpa);
              && achievements.rows == old(achievements.rows)[i := a.(verified := true, verifiedBy := "AutoVerify")]
              && (fails ==> profiles.rows == old(profiles.rows) && history.rows == old(history.rows))
              && (!fails ==>
                    && profiles.rows == old(profiles.rows)[a.student := old(profiles.rows)[a.student].(incoscore := score)]
                    && (old(profiles.rows)[a.student].incoscore != score ==>
                          history.rows == old(history.rows) +
                            [ScoreEntry(a.student, score, HistoryReason("Achievement verified: " + a.title, old(profiles.rows)[a.student].incoscore))])
                    && (old(profiles.rows)[a.student].incoscore == score ==> history.rows == old(history.rows)))
  {
    marked := false;
    var found := IndexOf(achievements.rows, id);
    if found.None? {
      return;
    }
    var i := found.value;
    var a := achievements.rows[i];
    if a.proofUrl != "" && head == Some(200) {
      achievements.Update(i, a.(verified := true, verifiedBy := "AutoVerify"));
      if !fails {
        var _ := UpdateStudentScore(profiles, history, achievements.rows, a.student, "Achievement verified: " + a.title);
      }
      marked := true;
    }
  }
}
