/** Applications to opportunities (ivy_intelligence/apps/applications/views.py
    and the Application row of ivy_intelligence/apps/applications/models.py):
    applying once per opportunity, the form-field matching of the auto-fill
    attempt, withdrawing, and the status counts of the student's page. The
    fetched page is a parameter: the forms it holds, each a list of input,
    textarea and select elements, or the message of the exception raised
    while fetching or parsing it. */
module Applications {
  import opened Wrappers
  import opened Text
  import opened Profiles
  import opened OpportunityModels

  datatype Status = PENDING | SUBMITTED | IN_REVIEW | SHORTLISTED | SELECTED | REJECTED | WITHDRAWN

  datatype Application = Application(
    id: nat,
    student: UserId,
    opportunity: nat,
    status: Status,
    coverLetter: string,
    autoSubmitted: bool)

  /** The Application columns with defaults: status PENDING, not auto-submitted. */
  function NewApplication(id: nat, student: UserId, opportunity: nat, coverLetter: string): (a: Application)
    ensures a.status == PENDING && !a.autoSubmitted
    ensures a.id == id && a.student == student && a.opportunity == opportunity && a.coverLetter == coverLetter
  {
    Application(id, student, opportunity, PENDING, coverLetter, false)
  }

  /** Keys distinct and below the next key; at most one application per
      (student, opportunity) pair. */
  predicate ApplicationsInvariant(rows: seq<Application>, nextId: nat)
  {
    && (forall i :: 0 <= i < |rows| ==> rows[i].id < nextId)
    && (forall i, j :: 0 <= i < j < |rows| ==> rows[i].id != rows[j].id)
    && (forall i, j :: 0 <= i < j < |rows| ==>
          rows[i].student != rows[j].student || rows[i].opportunity != rows[j].opportunity)
  }

  /** The Application table, in insertion order. */
  class ApplicationTable {
    var rows: seq<Application>
    var nextId: nat

    ghost predicate Valid()
      reads this
    {
      ApplicationsInvariant(rows, nextId)
    }

    constructor ()
      ensures Valid() && rows == [] && nextId == 1
    {
      rows := [];
      nextId := 1;
    }

    /** `Application.objects.filter(student=..., opportunity=...).exists()` */
    function Exists(student: UserId, opportunity: nat): (b: bool)
      reads this
      ensures b <==> exists i :: 0 <= i < |rows| && rows[i].student == student && rows[i].opportunity == opportunity
    {
      exists i :: 0 <= i < |rows| && rows[i].student == student && rows[i].opportunity == opportunity
    }

    /** `Application.objects.create(...)` for a pair not yet applied for. */
    method Create(a: Application) returns (id: nat)
      requires Valid() && !Exists(a.student, a.opportunity)
      modifies this
      ensures Valid()
      ensures id == old(nextId) && rows == old(rows) + [a.(id := id)] && nextId == old(nextId) + 1
    {
      id := nextId;
      rows := rows + [a.(id := id)];
      nextId := nextId + 1;
    }

    /** `application.save()` for the row at `i`, whose key and pair are kept. */
    method Update(i: nat, a: Application)
      requires Valid() && i < |rows|
      requires a.id == rows[i].id && a.student == rows[i].student && a.opportunity == rows[i].opportunity
      modifies this
      ensures Valid()
      ensures rows == old(rows)[i := a] && nextId == old(nextId)
    {
      rows := rows[i := a];
    }
  }

  // ---------------------------------------------------------------- auto-fill

  /** One form element, with its `name` and `id` attributes ("" when absent). */
  datatype Input = Input(name: string, id: string)

  /** The page as the auto-fill attempt sees it. */
  datatype Fetch = Fetched(forms: seq<seq<Input>>) | Raised(message: string)

  datatype AutoFillResult = AutoFillResult(success: bool, reason: string, detected: seq<string>, filled: seq<string>)

  /** One AutoFillLog row. */
  datatype AutoFillEntry = AutoFillEntry(application: nat, formUrl: string, detected: seq<string>, filled: seq<string>, success: bool)

  /** The AutoFillLog table, in insertion order. */
  class AutoFillLogTable {
    var rows: seq<AutoFillEntry>

    constructor ()
      ensures rows == []
    {
      rows := [];
    }

    method Record(entry: AutoFillEntry)
      modifies this
      ensures rows == old(rows) + [entry]
    {
      rows := rows + [entry];
    }
  }

  /** `inp.get('name', '') or inp.get('id', '')` */
  function FieldName(inp: Input): (f: string)
    ensures f == "" <==> inp.name == "" && inp.id == ""
    ensures f == inp.name || f == inp.id
  {
    if inp.name != "" then inp.name else inp.id
  }

  /** The field names of one form, in order, skipping elements with neither attribute. */
  function DetectedIn(form: seq<Input>): (names: seq<string>)
    ensures forall f :: f in names ==> f != "" && exists k :: 0 <= k < |form| && FieldName(form[k]) == f
  {
    if form == [] then []
    else
      var names := DetectedIn(form[..|form| - 1]);
      var f := FieldName(form[|form| - 1]);
      assert forall k :: 0 <= k < |form| - 1 ==> form[..|form| - 1][k] == form[k];
      if f != "" then names + [f] else names
  }

  /** The field names of all forms, form after form. */
  function Detected(forms: seq<seq<Input>>): (names: seq<string>)
    ensures forall f :: f in names ==> f != "" && exists i, k :: 0 <= i < |forms| && 0 <= k < |forms[i]| && FieldName(forms[i][k]) == f
  {
    if forms == [] then []
    else
      var names := Detected(forms[..|forms| - 1]);
      assert forall i :: 0 <= i < |forms| - 1 ==> forms[..|forms| - 1][i] == forms[i];
      names + DetectedIn(forms[|forms| - 1])
  }

  /** Every named element of every form is detected. */
  lemma {:induction false} DetectedInComplete(form: seq<Input>, k: nat)
    requires k < |form| && FieldName(form[k]) != ""
    ensures FieldName(form[k]) in DetectedIn(form)
  {
    if k < |form| - 1 {
      DetectedInComplete(form[..|form| - 1], k);
    }
  }

  /** The keys of the profile field map. */
  const PROFILE_FIELDS: seq<string> := ["name", "email", "first_name", "last_name", "university"]

  predicate IsProfileField(f: string)
  {
    Lower(f) in PROFILE_FIELDS
  }

  /** `[f for f in fields_detected if f.lower() in field_map]` */
  function Filled(detected: seq<string>): (filled: seq<string>)
    ensures forall f :: f in filled <==> f in detected && IsProfileField(f)
  {
    Filter(detected, (f: string) => IsProfileField(f))
  }

  /** Matching ignores case: "Email" is filled; "phone" is not. */
  lemma MatchingIgnoresCase()
    ensures IsProfileField("Email") && IsProfileField("FIRST_NAME")
    ensures !IsProfileField("phone")
  {
    var e := Lower("Email");
    assert e[0] == 'e' && e[1] == 'm' && e[2] == 'a' && e[3] == 'i' && e[4] == 'l';
    assert e == "email";
    var f := Lower("FIRST_NAME");
    assert f[0] == 'f' && f[1] == 'i' && f[2] == 'r' && f[3] == 's' && f[4] == 't' && f[5] == '_';
    assert f[6] == 'n' && f[7] == 'a' && f[8] == 'm' && f[9] == 'e';
    assert f == "first_name";
    var p := Lower("phone");
    assert |p| == 5 && p[0] == 'p';
  }

  /** `attempt_auto_fill`: the fields of every form are detected with nested
      loops, the profile fields among them are filled, and a log row is
      written. Success means at least one field was filled. A page without a
      form, or an exception, fails with its reason and writes no log row. */
  method AttemptAutoFill(logs: AutoFillLogTable, application: nat, url: string, fetch: Fetch) returns (result: AutoFillResult)
    modifies logs
    ensures fetch.Raised? ==> result == AutoFillResult(false, fetch.message, [], []) && logs.rows == old(logs.rows)
    ensures fetch.Fetched? && fetch.forms == [] ==>
              result == AutoFillResult(false, "No application form found on page", [], []) && logs.rows == old(logs.rows)
    ensures fetch.Fetched? && fetch.forms != [] ==>
              && result.detected == Detected(fetch.forms)
              && result.filled == Filled(result.detected)
              && (result.success <==> result.filled != [])
              && result.reason == (if result.success then "" else "Form fields did not match profile data")
              && logs.rows == old(logs.rows) + [AutoFillEntry(application, url, result.detected, result.filled, result.success)]
  {
    result := AutoFillResult(false, "", [], []);
    if fetch.Raised? {
      return result.(reason := fetch.message);
    }
    var forms := fetch.forms;
    if forms == [] {
      return result.(reason := "No application form found on page");
    }
    var detected: seq<string> := [];
    for i := 0 to |forms|
      invariant detected == Detected(forms[..i])
    {
      var form := forms[i];
      ghost var before := detected;
      for j := 0 to |form|
        invariant detected == before + DetectedIn(form[..j])
      {
        assert form[..j + 1][..j] == form[..j];
        var name := if form[j].name != "" then form[j].name else form[j].id;
        if name != "" {
          detected := detected + [name];
        }
      }
      assert form[..|form|] == form;
      assert forms[..i + 1][..i] == forms[..i];
    }
    assert forms[..|forms|] == forms;
    var filled := Filled(detected);
    result := result.(detected := detected, filled := filled);
    logs.Record(AutoFillEntry(application, url, detected, filled, |filled| > 0));
    result := result.(success := |filled| > 0);
    if !result.success {
      result := result.(reason := "Form fields did not match profile data");
    }
  }

  // ---------------------------------------------------------------- apply

  /** The position of the active opportunity with key `id`, if any. */
  function FindActive(opportunities: seq<Opportunity>, id: nat): (r: Option<nat>)
    ensures r.Some? ==> r.value < |opportunities| && opportunities[r.value].id == id && opportunities[r.value].isActive
    ensures r.None? ==> forall i :: 0 <= i < |opportunities| ==> opportunities[i].id != id || !opportunities[i].isActive
  {
    if opportunities == [] then None
    else if opportunities[|opportunities| - 1].id == id && opportunities[|opportunities| - 1].isActive then Some(|opportunities| - 1)
    else FindActive(opportunities[..|opportunities| - 1], id)
  }

  datatype ApplyOutcome = OpportunityNotFound | AlreadyApplied | FormShown | Applied(id: nat, autoSubmitted: bool)

  /** Was auto-fill requested: the opportunity has a source URL and the form
      asked for it with the value "1". */
  predicate AutoFillRequested(o: Opportunity, autoApply: string)
  {
    o.sourceUrl != "" && autoApply == "1"
  }

  /** The auto-fill log rows an application `id` to `o` writes: one row
      when auto-fill was requested and the page was fetched with a form,
      none otherwise. */
  function AutoFillLog(o: Opportunity, autoApply: string, fetch: Fetch, id: nat): seq<AutoFillEntry>
  {
    if AutoFillRequested(o, autoApply) && fetch.Fetched? && fetch.forms != [] then
      var detected := Detected(fetch.forms);
      [AutoFillEntry(id, o.sourceUrl, detected, Filled(detected), Filled(detected) != [])]
    else []
  }

  /** `apply(opportunity_id)`: only an active opportunity is found; a second
      application for the same pair is refused; a GET shows the form; a POST
      creates a SUBMITTED application, attempts auto-fill when requested, and
      marks the application auto-submitted exactly when that succeeded. */
  method Apply(apps: ApplicationTable, logs: AutoFillLogTable, profiles: ProfileTable, opportunities: seq<Opportunity>,
               user: UserId, opportunityId: nat, isPost: bool, coverLetter: string, autoApply: string, fetch: Fetch)
    returns (outcome: ApplyOutcome)
    requires apps.Valid() && profiles.Valid()
    modifies apps, logs, profiles
    ensures apps.Valid() && profiles.Valid()
    ensures outcome == OpportunityNotFound <==> FindActive(opportunities, opportunityId).None?
    ensures outcome == AlreadyApplied <==>
              FindActive(opportunities, opportunityId).Some? && old(apps.Exists(user, opportunityId))
    ensures outcome == FormShown <==>
              FindActive(opportunities, opportunityId).Some? && !old(apps.Exists(user, opportunityId)) && !isPost
    ensures !outcome.Applied? ==> apps.rows == old(apps.rows)
    ensures outcome.Applied? ==>
              var o := opportunities[FindActive(opportunities, opportunityId).value];
              && outcome.id == old(apps.nextId)
              && apps.rows == old(apps.rows) + [Application(outcome.id, user, opportunityId, SUBMITTED, coverLetter, outcome.autoSubmitted)]
              && (outcome.autoSubmitted <==>
                    AutoFillRequested(o, autoApply) && fetch.Fetched? && fetch.forms != [] && Filled(Detected(fetch.forms)) != [])
              && logs.rows == old(logs.rows) + AutoFillLog(o, autoApply, fetch, outcome.id)
    ensures !outcome.Applied? ==> logs.rows == old(logs.rows)
  {
    var found := FindActive(opportunities, opportunityId);
    if found.None? {
      return OpportunityNotFound;
    }
    var opportunity := opportunities[found.value];
    if apps.Exists(user, opportunityId) {
      return AlreadyApplied;
    }
    var _, _ := profiles.GetOrCreate(user);
    if !isPost {
      return FormShown;
    }
    var id, auto := Submit(apps, logs, opportunity, user, opportunityId, coverLetter, autoApply, fetch);
    outcome := Applied(id, auto);
  }

  /** The POST branch of `apply`: a SUBMITTED application is created, then
      auto-fill is attempted when requested, and the application is marked
      auto-submitted exactly when it succeeded. */
  method Submit(apps: ApplicationTable, logs: AutoFillLogTable, opportunity: Opportunity, user: UserId, opportunityId: nat,
                coverLetter: string, autoApply: string, fetch: Fetch) returns (id: nat, auto: bool)
    requires apps.Valid() && !apps.Exists(user, opportunityId)
    modifies apps, logs
    ensures apps.Valid()
    ensures id == old(apps.nextId)
    ensures apps.rows == old(apps.rows) + [Application(id, user, opportunityId, SUBMITTED, coverLetter, auto)]
    ensures auto <==> AutoFillRequested(opportunity, autoApply) && fetch.Fetched? && fetch.forms != [] && Filled(Detected(fetch.forms)) != []
    ensures logs.rows == old(logs.rows) + AutoFillLog(opportunity, autoApply, fetch, id)
  {
    id := apps.Create(NewApplication(0, user, opportunityId, coverLetter).(status := SUBMITTED));
    auto := false;
    if opportunity.sourceUrl != "" && autoApply == "1" {
      var result := AttemptAutoFill(logs, id, opportunity.sourceUrl, fetch);
      if result.success {
        apps.Update(|apps.rows| - 1, apps.rows[|apps.rows| - 1].(autoSubmitted := true));
        auto := true;
      }
    }
  }

  // ---------------------------------------------------------------- withdraw

  datatype WithdrawOutcome = NotFound | NotWithdrawable | Withdrawn

  /** The position of the caller's application with key `id`, if any. */
  function OwnApplication(rows: seq<Application>, id: nat, user: UserId): (r: Option<nat>)
    ensures r.Some? ==> r.value < |rows| && rows[r.value].id == id && rows[r.value].student == user
    ensures r.None? ==> forall i :: 0 <= i < |rows| ==> rows[i].id != id || rows[i].student != user
  {
    if rows == [] then None
    else if rows[|rows| - 1].id == id && rows[|rows| - 1].student == user then Some(|rows| - 1)
    else OwnApplication(rows[..|rows| - 1], id, user)
  }

  /** The statuses a student may still withdraw from. */
  predicate Withdrawable(s: Status)
  {
    s == PENDING || s == SUBMITTED
  }

  /** `withdraw_application`: only the caller's application is found; a
      PENDING or SUBMITTED one becomes WITHDRAWN; any other is left as it is. */
  method WithdrawApplication(apps: ApplicationTable, user: UserId, id: nat) returns (outcome: WithdrawOutcome)
    requires apps.Valid()
    modifies apps
    ensures apps.Valid()
    ensures var i := OwnApplication(old(apps.rows), id, user);
            && (outcome == NotFound <==> i.None?)
            && (outcome == NotWithdrawable <==> i.Some? && !Withdrawable(old(apps.rows)[i.value].status))
            && (outcome == Withdrawn <==> i.Some? && Withdrawable(old(apps.rows)[i.value].status))
            && (outcome == Withdrawn ==> apps.rows == old(apps.rows)[i.value := old(apps.rows)[i.value].(status := WITHDRAWN)])
            && (outcome != Withdrawn ==> apps.rows == old(apps.rows))
  {
    var found := OwnApplication(apps.rows, id, user);
    if found.None? {
      return NotFound;
    }
    var a := apps.rows[found.value];
    if a.status == PENDING || a.status == SUBMITTED {
      apps.Update(found.value, a.(status := WITHDRAWN));
      return Withdrawn;
    }
    outcome := NotWithdrawable;
  }

  // ---------------------------------------------------------------- counts

  /** The number of the student's applications, all of them or with one status. */
  function CountOf(rows: seq<Application>, user: UserId, status: Option<Status>): nat
  {
    if rows == [] then 0
    else
      var a := rows[|rows| - 1];
      CountOf(rows[..|rows| - 1], user, status) +
        (if a.student == user && (status.None? || status == Some(a.status)) then 1 else 0)
  }

  datatype StatusCounts = StatusCounts(total: nat, submitted: nat, shortlisted: nat, selected: nat)

  /** The counts of `my_applications`. */
  function MyApplicationCounts(rows: seq<Application>, user: UserId): (c: StatusCounts)
    ensures c.submitted + c.shortlisted + c.selected <= c.total
  {
    CountsWithinTotal(rows, user);
    StatusCounts(CountOf(rows, user, None), CountOf(rows, user, Some(SUBMITTED)),
                 CountOf(rows, user, Some(SHORTLISTED)), CountOf(rows, user, Some(SELECTED)))
  }

  /** The three status counts never exceed the total. */
  lemma {:induction false} CountsWithinTotal(rows: seq<Application>, user: UserId)
    ensures CountOf(rows, user, Some(SUBMITTED)) + CountOf(rows, user, Some(SHORTLISTED)) + CountOf(rows, user, Some(SELECTED))
            <= CountOf(rows, user, None)
  {
    if rows != [] {
      CountsWithinTotal(rows[..|rows| - 1], user);
    }
  }
}
