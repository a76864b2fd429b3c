/** Student profiles (ivy_intelligence/apps/profiles/models.py): the profile
    row, its completeness rule, the display names of its domains, the
    profile table with the save that recomputes completeness, and the two
    handlers run after a User is saved. */
module Profiles {
  import opened Wrappers
  import OpportunityModels

  type UserId = nat

  /** DOMAIN_CHOICES: (code, display name) pairs. */
  const DOMAIN_CHOICES: seq<(string, string)> := [
    ("AI", "Artificial Intelligence"), ("LAW", "Law"), ("BIO", "Biomedical"),
    ("ECE", "Electronics & Communication"), ("CS", "Computer Science"),
    ("BUSINESS", "Business & Management"), ("ENV", "Environmental Science"), ("OTHER", "Other")]

  /** The profile choices are the opportunity domain codes, so a profile's
      domains can be matched against opportunity domains. */
  lemma DomainChoicesMatchOpportunities()
    ensures |DOMAIN_CHOICES| == |OpportunityModels.DOMAIN_CODES|
    ensures forall i :: 0 <= i < |DOMAIN_CHOICES| ==>
              DOMAIN_CHOICES[i].0 == OpportunityModels.DOMAIN_CODES[i] && DOMAIN_CHOICES[i].1 == OpportunityModels.DOMAIN_NAMES[i]
  {
  }

  /** Is `code` one of the DOMAIN_CHOICES codes? */
  predicate IsDomainCode(code: string)
  {
    exists i :: 0 <= i < |DOMAIN_CHOICES| && DOMAIN_CHOICES[i].0 == code
  }

  datatype StudentProfile = StudentProfile(
    user: UserId,
    bio: string,
    university: string,
    cgpa: Option<real>,
    domains: seq<string>,
    skills: seq<string>,
    incoscore: real,
    profileComplete: bool)

  /** A profile created with only its user: empty text fields, no CGPA, no
      domains or skills, score 0.0, not complete. */
  function NewProfile(user: UserId): (p: StudentProfile)
    ensures p.user == user && p.incoscore == 0.0 && !p.profileComplete
    ensures p.bio == "" && p.university == "" && p.cgpa == None && p.domains == [] && p.skills == []
  {
    StudentProfile(user, "", "", None, [], [], 0.0, false)
  }

  /** `calculate_profile_completeness`: bio, university, domains and skills all non-empty. */
  function CalculateProfileCompleteness(p: StudentProfile): (complete: bool)
    ensures complete ==> p != NewProfile(p.user)
  {
    p.bio != "" && p.university != "" && p.domains != [] && p.skills != []
  }

  /** A fresh profile is incomplete, and so is any profile missing one of the four fields. */
  lemma IncompleteWithoutField(p: StudentProfile)
    requires p.bio == "" || p.university == "" || p.domains == [] || p.skills == []
    ensures !CalculateProfileCompleteness(p)
    ensures !CalculateProfileCompleteness(NewProfile(p.user))
  {
  }

  /** `dict(DOMAIN_CHOICES).get(code, code)`: later pairs win in a dict, and the codes are distinct. */
  function DomainName(code: string): (name: string)
    ensures forall j :: 0 <= j < |DOMAIN_CHOICES| && DOMAIN_CHOICES[j].0 == code ==> name == DOMAIN_CHOICES[j].1
    ensures !IsDomainCode(code) ==> name == code
  {
    DomainNameInSpec(DOMAIN_CHOICES, code);
    DomainNameIn(DOMAIN_CHOICES, code)
  }

  function DomainNameIn(choices: seq<(string, string)>, code: string): string
  {
    if choices == [] then code
    else if choices[|choices| - 1].0 == code then choices[|choices| - 1].1
    else DomainNameIn(choices[..|choices| - 1], code)
  }

  /** `get_domain_names`: one name per domain, in order; a known code becomes
      its display name, an unknown code is passed through. */
  function GetDomainNames(p: StudentProfile): (names: seq<string>)
    ensures |names| == |p.domains|
  {
    seq(|p.domains|, i requires 0 <= i < |p.domains| => DomainName(p.domains[i]))
  }

  lemma {:induction false} DomainNameInSpec(choices: seq<(string, string)>, code: string)
    requires forall i, j :: 0 <= i < j < |choices| ==> choices[i].0 != choices[j].0
    ensures forall j :: 0 <= j < |choices| && choices[j].0 == code ==> DomainNameIn(choices, code) == choices[j].1
    ensures (forall j :: 0 <= j < |choices| ==> choices[j].0 != code) ==> DomainNameIn(choices, code) == code
  {
    if choices != [] {
      DomainNameInSpec(choices[..|choices| - 1], code);
    }
  }

  lemma GetDomainNamesSpec(p: StudentProfile)
    ensures forall i, j :: 0 <= i < |p.domains| && 0 <= j < |DOMAIN_CHOICES| && p.domains[i] == DOMAIN_CHOICES[j].0 ==>
              GetDomainNames(p)[i] == DOMAIN_CHOICES[j].1
    ensures forall i :: 0 <= i < |p.domains| && !IsDomainCode(p.domains[i]) ==> GetDomainNames(p)[i] == p.domains[i]
  {
    forall i | 0 <= i < |p.domains| {
      DomainNameInSpec(DOMAIN_CHOICES, p.domains[i]);
    }
  }

  /** The profile table, keyed by user (the one-to-one link). */
  class ProfileTable {
    var rows: map<UserId, StudentProfile>

    ghost predicate Valid()
      reads this
    {
      forall u :: u in rows ==> rows[u].user == u
    }

    constructor ()
      ensures Valid() && rows == map[]
    {
      rows := map[];
    }

    /** `StudentProfile.save`: recomputes `profile_complete`, then writes the row. */
    method Save(p: StudentProfile)
      requires Valid()
      modifies this
      ensures Valid()
      ensures rows == old(rows)[p.user := p.(profileComplete := CalculateProfileCompleteness(p))]
      ensures rows[p.user].profileComplete == CalculateProfileCompleteness(rows[p.user])
    {
      rows := rows[p.user := p.(profileComplete := CalculateProfileCompleteness(p))];
    }

    /** `save(update_fields=['incoscore'])`: only the score column is written,
        whatever the in-memory completeness is. */
    method SaveIncoscore(user: UserId, score: real)
      requires Valid() && user in rows
      modifies this
      ensures Valid()
      ensures rows == old(rows)[user := old(rows)[user].(incoscore := score)]
    {
      rows := rows[user := rows[user].(incoscore := score)];
    }

    /** `StudentProfile.objects.get_or_create(user=user)`: the stored profile,
        or a new default profile saved for the user. */
    method GetOrCreate(user: UserId) returns (p: StudentProfile, created: bool)
      requires Valid()
      modifies this
      ensures Valid()
      ensures created <==> user !in old(rows)
      ensures !created ==> rows == old(rows) && p == rows[user]
      ensures created ==> p == NewProfile(user) && rows == old(rows)[user := p]
    {
      if user in rows {
        return rows[user], false;
      }
      p := NewProfile(user);
      Save(p);
      created := true;
    }

    /** The two handlers run after a User is saved, in registration order:
        a newly created user gets a default profile; then an existing
        profile is saved again, which recomputes its completeness. */
    method UserSaved(user: UserId, created: bool)
      requires Valid()
      requires created ==> user !in rows
      modifies this
      ensures Valid()
      ensures user in rows <==> created || user in old(rows)
      ensures created ==> rows == old(rows)[user := NewProfile(user)]
      ensures !created && user in old(rows) ==>
                rows == old(rows)[user := old(rows)[user].(profileComplete := CalculateProfileCompleteness(old(rows)[user]))]
      ensures !created && user !in old(rows) ==> rows == old(rows)
    {
      if created {
        Save(NewProfile(user));
      }
      if user in rows {
        Save(rows[user]);
      }
    }
  }
}
