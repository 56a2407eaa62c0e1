/**
 * The records the core reads: the candidate profile, the job posting and
 * the selection plan an LLM proposes. They carry no behaviour of their own.
 */
module Profiles {

  import opened Wrappers
  import opened Seqs

  datatype Social = Social(network: string, username: string)

  /** Header metadata of the profile. */
  datatype Meta = Meta(
    name: string,
    headline: Option<string>,
    location: string,
    email: string,
    phone: Option<string>,
    website: Option<string>,
    socials: seq<Social>)

  datatype Experience = Experience(
    id: Option<string>,
    company: string,
    position: string,
    location: Option<string>,
    date: Option<string>,
    startDate: Option<string>,
    endDate: Option<string>,
    summary: Option<string>,
    highlights: seq<string>,
    tags: seq<string>)

  datatype Project = Project(
    id: Option<string>,
    name: string,
    summary: Option<string>,
    location: Option<string>,
    date: Option<string>,
    startDate: Option<string>,
    endDate: Option<string>,
    highlights: seq<string>,
    tags: seq<string>)

  datatype Education = Education(
    id: Option<string>,
    institution: string,
    area: string,
    degree: Option<string>,
    location: Option<string>,
    date: Option<string>,
    startDate: Option<string>,
    endDate: Option<string>,
    summary: Option<string>,
    highlights: seq<string>,
    tags: seq<string>)

  datatype SkillEntry = SkillEntry(skillLabel: string, details: string)

  datatype Profile = Profile(
    meta: Meta,
    education: seq<Education>,
    experience: seq<Experience>,
    projects: seq<Project>,
    skills: seq<SkillEntry>,
    certifications: seq<string>,
    interests: seq<string>)

  /** A loaded job posting: the raw text, its cleaned form and its keywords. */
  datatype Job = Job(rawText: string, cleanedText: string, keywords: seq<string>)

  /**
   * The structured selection an LLM returns. `bulletOverrides` is a mapping
   * kept as a sequence of (key, bullets) pairs in insertion order, because
   * validation reports bad keys in that order.
   */
  datatype SelectionPlan = SelectionPlan(
    experienceIds: seq<string>,
    projectIds: seq<string>,
    educationIds: seq<string>,
    skillLabels: seq<string>,
    bulletOverrides: seq<(string, seq<string>)>,
    sectionOrder: seq<string>)

  /** The keys of the bullet overrides, in order. */
  function OverrideKeys(plan: SelectionPlan): (ks: seq<string>)
    ensures |ks| == |plan.bulletOverrides|
    ensures forall i :: 0 <= i < |ks| ==> ks[i] == plan.bulletOverrides[i].0
  {
    seq(|plan.bulletOverrides|, i requires 0 <= i < |plan.bulletOverrides| => plan.bulletOverrides[i].0)
  }

  /** Present, non-empty ids of a list of optional ids, in order (`[x.id for x in xs if x.id]`). */
  function PresentIds(ids: seq<Option<string>>): (r: seq<string>)
    ensures forall s :: s in r <==> s != [] && Some(s) in ids
    ensures |r| <= |ids|
    decreases |ids|
  {
    if ids == [] then []
    else
      var rest := PresentIds(ids[1..]);
      assert ids == [ids[0]] + ids[1..];
      if ids[0].Some? && ids[0].value != [] then [ids[0].value] + rest else rest
  }

  /** An id the comprehension keeps: present and non-empty. */
  predicate IsPresentId(o: Option<string>) {
    o.Some? && o.value != []
  }

  /** The text of an id, empty when it is absent. */
  function IdText(o: Option<string>): string {
    if o.Some? then o.value else []
  }

  /** `PresentIds` is the comprehension itself: keep the present ids, in order, and take their text. */
  lemma {:induction false} PresentIdsComprehension(ids: seq<Option<string>>)
    ensures PresentIds(ids) == Map(IdText, Filter(ids, IsPresentId))
    decreases |ids|
  {
    if ids != [] {
      PresentIdsComprehension(ids[1..]);
      var rest := Filter(ids[1..], IsPresentId);
      if IsPresentId(ids[0]) {
        assert Map(IdText, [ids[0]] + rest) == [ids[0].value] + Map(IdText, rest);
      }
    }
  }

  function ExperienceIdOptions(xs: seq<Experience>): (r: seq<Option<string>>)
    ensures |r| == |xs| && forall i :: 0 <= i < |xs| ==> r[i] == xs[i].id
  {
    seq(|xs|, i requires 0 <= i < |xs| => xs[i].id)
  }

  function ProjectIdOptions(xs: seq<Project>): (r: seq<Option<string>>)
    ensures |r| == |xs| && forall i :: 0 <= i < |xs| ==> r[i] == xs[i].id
  {
    seq(|xs|, i requires 0 <= i < |xs| => xs[i].id)
  }

  function EducationIdOptions(xs: seq<Education>): (r: seq<Option<string>>)
    ensures |r| == |xs| && forall i :: 0 <= i < |xs| ==> r[i] == xs[i].id
  {
    seq(|xs|, i requires 0 <= i < |xs| => xs[i].id)
  }

  /** The profile's non-empty experience ids, in profile order. */
  function ExperienceIds(p: Profile): seq<string> {
    PresentIds(ExperienceIdOptions(p.experience))
  }

  function ProjectIds(p: Profile): seq<string> {
    PresentIds(ProjectIdOptions(p.projects))
  }

  function EducationIds(p: Profile): seq<string> {
    PresentIds(EducationIdOptions(p.education))
  }

  /** Every skill label of the profile, in order, with no filtering. */
  function SkillLabels(p: Profile): (r: seq<string>)
    ensures |r| == |p.skills| && forall i :: 0 <= i < |r| ==> r[i] == p.skills[i].skillLabel
  {
    seq(|p.skills|, i requires 0 <= i < |p.skills| => p.skills[i].skillLabel)
  }

  /** `s` is the non-empty id of some experience entry. */
  predicate HasExperienceId(p: Profile, s: string) {
    s != [] && exists i :: 0 <= i < |p.experience| && p.experience[i].id == Some(s)
  }

  predicate HasProjectId(p: Profile, s: string) {
    s != [] && exists i :: 0 <= i < |p.projects| && p.projects[i].id == Some(s)
  }

  predicate HasEducationId(p: Profile, s: string) {
    s != [] && exists i :: 0 <= i < |p.education| && p.education[i].id == Some(s)
  }

  /** The id lists hold exactly the non-empty ids of the entries, in entry order. */
  lemma IdListsExact(p: Profile, s: string)
    ensures s in ExperienceIds(p) <==> HasExperienceId(p, s)
    ensures s in ProjectIds(p) <==> HasProjectId(p, s)
    ensures s in EducationIds(p) <==> HasEducationId(p, s)
    ensures ExperienceIds(p) == Map(IdText, Filter(ExperienceIdOptions(p.experience), IsPresentId))
    ensures ProjectIds(p) == Map(IdText, Filter(ProjectIdOptions(p.projects), IsPresentId))
    ensures EducationIds(p) == Map(IdText, Filter(EducationIdOptions(p.education), IsPresentId))
  {
    IdListsMembers(p, s);
    PresentIdsComprehension(ExperienceIdOptions(p.experience));
    PresentIdsComprehension(ProjectIdOptions(p.projects));
    PresentIdsComprehension(EducationIdOptions(p.education));
  }

  /** The membership half of `IdListsExact`. */
  lemma IdListsMembers(p: Profile, s: string)
    ensures s in ExperienceIds(p) <==> HasExperienceId(p, s)
    ensures s in ProjectIds(p) <==> HasProjectId(p, s)
    ensures s in EducationIds(p) <==> HasEducationId(p, s)
  {
    var e := ExperienceIdOptions(p.experience);
    var q := ProjectIdOptions(p.projects);
    var d := EducationIdOptions(p.education);
    assert Some(s) in e <==> exists i :: 0 <= i < |p.experience| && p.experience[i].id == Some(s) by {
      if Some(s) in e {
        var i :| 0 <= i < |e| && e[i] == Some(s);
        assert p.experience[i].id == Some(s);
      }
    }
    assert Some(s) in q <==> exists i :: 0 <= i < |p.projects| && p.projects[i].id == Some(s) by {
      if Some(s) in q {
        var i :| 0 <= i < |q| && q[i] == Some(s);
        assert p.projects[i].id == Some(s);
      }
    }
    assert Some(s) in d <==> exists i :: 0 <= i < |p.education| && p.education[i].id == Some(s) by {
      if Some(s) in d {
        var i :| 0 <= i < |d| && d[i] == Some(s);
        assert p.education[i].id == Some(s);
      }
    }
  }
}
