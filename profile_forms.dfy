/** The profile edit form (ivy_intelligence/apps/profiles/forms.py): the
    initial text of the skills box, the domain choices, and the save that
    parses the skills text and persists only on commit. */
module ProfileForms {
  import opened Wrappers
  import opened Text
  import opened Profiles

  /** The cleaned data of a valid form: the model fields it edits, the skills
      text and the chosen domain codes. Files, links and the year of study
      are not modelled. */
  datatype FormData = FormData(bio: string, university: string, cgpa: Option<real>, skillsInput: string, domains: seq<string>)

  /** A MultipleChoiceField over DOMAIN_CHOICES validates only when every
      chosen value is one of its codes; an empty choice is allowed. */
  predicate ValidDomains(domains: seq<string>)
  {
    forall d :: d in domains ==> IsDomainCode(d)
  }

  /** The initial value of `domains_of_interest`: the stored list, for a
      saved profile whose list is non-empty. */
  function InitialDomains(p: StudentProfile, saved: bool): (initial: Option<seq<string>>)
    ensures initial.Some? <==> saved && p.domains != []
    ensures initial.Some? ==> initial.value == p.domains
  {
    if saved && p.domains != [] then Some(p.domains) else None
  }

  /** The initial value of `skills_input`: the stored skills joined by ", ",
      for a saved profile with skills. */
  function InitialSkills(p: StudentProfile, saved: bool): (initial: Option<string>)
    ensures initial.Some? <==> saved && p.skills != []
  {
    if saved && p.skills != [] then Some(Join(p.skills, ", ")) else None
  }

  /** The profile the form's `save` builds, before any write: the edited
      fields copied, the skills parsed from the text, the domains as chosen. */
  function Edited(p: StudentProfile, data: FormData): (q: StudentProfile)
    ensures q.user == p.user && q.incoscore == p.incoscore && q.profileComplete == p.profileComplete
    ensures q.bio == data.bio && q.university == data.university && q.cgpa == data.cgpa
    ensures q.skills == CommaList(data.skillsInput) && q.domains == data.domains
    ensures forall s :: s in q.skills ==> ListItem(s)
  {
    p.(bio := data.bio, university := data.university, cgpa := data.cgpa,
       skills := CommaList(data.skillsInput), domains := data.domains)
  }

  /** Submitting the form unchanged keeps the skills: the initial text parses
      back to the stored list when every skill is a list item. */
  lemma SkillsRoundTrip(p: StudentProfile)
    requires p.skills != []
    requires forall s :: s in p.skills ==> ListItem(s)
    ensures InitialSkills(p, true).Some?
    ensures CommaList(InitialSkills(p, true).value) == p.skills
  {
    CommaListJoinRoundTrip(p.skills);
  }

  /** A saved profile without skills shows an empty box, which saves as no skills. */
  lemma EmptySkillsBox(p: StudentProfile, data: FormData)
    requires data.skillsInput == ""
    ensures Edited(p, data).skills == []
  {
    CommaListOfBlanks(data.skillsInput);
  }

  /** `ProfileUpdateForm.save(commit)` on the profile of `user`: the edited
      profile is returned; with `commit` it is saved, which recomputes its
      completeness; without `commit` nothing is written. */
  method FormSave(profiles: ProfileTable, p: StudentProfile, data: FormData, commit: bool) returns (instance: StudentProfile)
    requires profiles.Valid()
    requires ValidDomains(data.domains)
    modifies profiles
    ensures profiles.Valid()
    ensures commit ==> instance == Edited(p, data).(profileComplete := CalculateProfileCompleteness(Edited(p, data)))
    ensures commit ==> profiles.rows == old(profiles.rows)[p.user := instance]
    ensures !commit ==> instance == Edited(p, data) && profiles.rows == old(profiles.rows)
  {
    instance := p.(bio := data.bio, university := data.university, cgpa := data.cgpa);
    var skills := CommaList(data.skillsInput);
    instance := instance.(skills := skills, domains := data.domains);
    if commit {
      instance := instance.(profileComplete := CalculateProfileCompleteness(instance));
      profiles.Save(instance);
    }
  }
}
