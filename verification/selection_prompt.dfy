/**
 * The request sent to an LLM provider for a selection plan: a constant
 * system prompt and a payload listing the allowed values, a summary of the
 * profile, an excerpt of the job and, on a retry, the feedback of the
 * previous attempt. The payload is kept as a record; its JSON rendering is
 * not modelled.
 */
module SelectionPrompt {

  import opened Wrappers
  import opened Seqs
  import opened Profiles
  import opened SelectionValidator

  /** The instructions every invocation carries, whatever the profile, job or feedback. */
  const SystemPrompt: string :=
    "You are an assistant that selects resume content from a provided profile for a specific job.\n"
    + "Return only valid JSON. Do not include markdown, explanations, or prose.\n"
    + "\n"
    + "Rules:\n"
    + "- You must never invent IDs or skill labels.\n"
    + "- Use only IDs and labels present in the provided allowed lists.\n"
    + "- If a section should include everything, you may omit that section's selection key.\n"
    + "- section_order may only use: Experience, Projects, Education, Skills.\n"
    + "- bullet_overrides keys must be valid entry IDs from experience/project/education.\n"
    + "- Keep bullet_overrides concise and tailored to the job description."

  const Task: string :=
    "Select the most relevant profile items for this job and return JSON matching LlmSelectionPlan."

  /** The section titles a plan may order. */
  const SectionTitles: seq<string> := ["Experience", "Projects", "Education", "Skills"]

  /** How many job keywords the payload carries at most. */
  const MaxPromptKeywords: nat := 40

  /** The example plan shown to the model. */
  const OutputTemplate: SelectionPlan := SelectionPlan(
    ["exp_id_1"], ["proj_id_1"], ["edu_id_1"], ["Languages"],
    [("exp_id_1", ["Optional rewritten bullet"])],
    SectionTitles)

  datatype AllowedValues = AllowedValues(
    experienceIds: seq<string>,
    projectIds: seq<string>,
    educationIds: seq<string>,
    skillLabels: seq<string>,
    sectionOrderTitles: seq<string>)

  datatype MetaSummary = MetaSummary(name: string, headline: Option<string>, location: string)

  datatype ExperienceSummary = ExperienceSummary(
    id: Option<string>, company: string, position: string,
    summary: Option<string>, highlights: seq<string>, tags: seq<string>)

  datatype ProjectSummary = ProjectSummary(
    id: Option<string>, name: string,
    summary: Option<string>, highlights: seq<string>, tags: seq<string>)

  datatype EducationSummary = EducationSummary(
    id: Option<string>, institution: string, area: string, degree: Option<string>,
    summary: Option<string>, highlights: seq<string>, tags: seq<string>)

  datatype SkillSummary = SkillSummary(skillLabel: string, details: string)

  datatype ProfilePayload = ProfilePayload(
    meta: MetaSummary,
    experience: seq<ExperienceSummary>,
    projects: seq<ProjectSummary>,
    education: seq<EducationSummary>,
    skills: seq<SkillSummary>)

  datatype JobPayload = JobPayload(keywords: seq<string>, cleanedTextExcerpt: string)

  datatype Payload = Payload(
    task: string,
    allowedValues: AllowedValues,
    profile: ProfilePayload,
    job: JobPayload,
    outputTemplate: SelectionPlan,
    retryFeedback: Option<seq<string>>)

  /** What a provider is asked: the system prompt and the user payload. */
  datatype Invocation = Invocation(systemPrompt: string, payload: Payload)

  /** `_allowed_values`: the values a plan may use. */
  function AllowedValuesOf(p: Profile): AllowedValues {
    AllowedValues(ExperienceIds(p), ProjectIds(p), EducationIds(p), SkillLabels(p), SectionTitles)
  }

  function ExperienceSummaries(xs: seq<Experience>): (r: seq<ExperienceSummary>)
    ensures |r| == |xs|
    ensures forall i :: 0 <= i < |xs| ==> r[i].id == xs[i].id && r[i].highlights == xs[i].highlights
  {
    seq(|xs|, i requires 0 <= i < |xs| =>
      ExperienceSummary(xs[i].id, xs[i].company, xs[i].position, xs[i].summary, xs[i].highlights, xs[i].tags))
  }

  function ProjectSummaries(xs: seq<Project>): (r: seq<ProjectSummary>)
    ensures |r| == |xs|
    ensures forall i :: 0 <= i < |xs| ==> r[i].id == xs[i].id && r[i].highlights == xs[i].highlights
  {
    seq(|xs|, i requires 0 <= i < |xs| =>
      ProjectSummary(xs[i].id, xs[i].name, xs[i].summary, xs[i].highlights, xs[i].tags))
  }

  function EducationSummaries(xs: seq<Education>): (r: seq<EducationSummary>)
    ensures |r| == |xs|
    ensures forall i :: 0 <= i < |xs| ==> r[i].id == xs[i].id && r[i].highlights == xs[i].highlights
  {
    seq(|xs|, i requires 0 <= i < |xs| =>
      EducationSummary(xs[i].id, xs[i].institution, xs[i].area, xs[i].degree, xs[i].summary,
                       xs[i].highlights, xs[i].tags))
  }

  function SkillSummaries(xs: seq<SkillEntry>): (r: seq<SkillSummary>)
    ensures |r| == |xs|
    ensures forall i :: 0 <= i < |xs| ==> r[i].skillLabel == xs[i].skillLabel
  {
    seq(|xs|, i requires 0 <= i < |xs| => SkillSummary(xs[i].skillLabel, xs[i].details))
  }

  /**
   * `_profile_payload`: one summary record per profile entry, entries
   * without an id included, in profile order.
   */
  function ProfilePayloadOf(p: Profile): (r: ProfilePayload)
    ensures |r.experience| == |p.experience| && |r.projects| == |p.projects|
    ensures |r.education| == |p.education| && |r.skills| == |p.skills|
    ensures forall i :: 0 <= i < |p.experience| ==> r.experience[i].id == p.experience[i].id
    ensures forall i :: 0 <= i < |p.projects| ==> r.projects[i].id == p.projects[i].id
    ensures forall i :: 0 <= i < |p.education| ==> r.education[i].id == p.education[i].id
  {
    ProfilePayload(
      MetaSummary(p.meta.name, p.meta.headline, p.meta.location),
      ExperienceSummaries(p.experience),
      ProjectSummaries(p.projects),
      EducationSummaries(p.education),
      SkillSummaries(p.skills))
  }

  /**
   * `build_selection_invocation`. `feedback` stands for `feedback_errors`,
   * with `None` written as the empty sequence: both leave the retry
   * feedback out.
   */
  function BuildSelectionInvocation(p: Profile, job: Job, feedback: seq<string>, maxJobChars: int): (r: Invocation)
    ensures r.systemPrompt == SystemPrompt
    ensures r.payload.retryFeedback.Some? <==> feedback != []
    ensures r.payload.retryFeedback.Some? ==> r.payload.retryFeedback.value == feedback
    ensures r.payload.job.keywords <= job.keywords
    ensures |r.payload.job.keywords| == if |job.keywords| < MaxPromptKeywords then |job.keywords| else MaxPromptKeywords
    ensures r.payload.job.cleanedTextExcerpt <= job.cleanedText
    ensures maxJobChars >= 0 ==>
      |r.payload.job.cleanedTextExcerpt| == if |job.cleanedText| < maxJobChars then |job.cleanedText| else maxJobChars
    ensures maxJobChars < 0 ==>
      |r.payload.job.cleanedTextExcerpt| == if |job.cleanedText| + maxJobChars < 0 then 0 else |job.cleanedText| + maxJobChars
  {
    var payload := Payload(
      Task,
      AllowedValuesOf(p),
      ProfilePayloadOf(p),
      JobPayload(Take(job.keywords, MaxPromptKeywords), SliceTo(job.cleanedText, maxJobChars)),
      OutputTemplate,
      if feedback != [] then Some(feedback) else None);
    Invocation(SystemPrompt, payload)
  }

  /**
   * The allowed id lists hold exactly the non-empty ids of the profile's
   * entries, and the allowed skill labels are all its labels.
   */
  lemma AllowedValuesExact(p: Profile, x: string)
    ensures x in AllowedValuesOf(p).experienceIds <==> HasExperienceId(p, x)
    ensures x in AllowedValuesOf(p).projectIds <==> HasProjectId(p, x)
    ensures x in AllowedValuesOf(p).educationIds <==> HasEducationId(p, x)
    ensures x in AllowedValuesOf(p).skillLabels <==> exists i :: 0 <= i < |p.skills| && p.skills[i].skillLabel == x
    ensures AllowedValuesOf(p).sectionOrderTitles == SectionTitles
    ensures AllowedValuesOf(p).experienceIds == Map(IdText, Filter(ExperienceIdOptions(p.experience), IsPresentId))
    ensures AllowedValuesOf(p).projectIds == Map(IdText, Filter(ProjectIdOptions(p.projects), IsPresentId))
    ensures AllowedValuesOf(p).educationIds == Map(IdText, Filter(EducationIdOptions(p.education), IsPresentId))
    ensures |AllowedValuesOf(p).skillLabels| == |p.skills|
    ensures forall i :: 0 <= i < |p.skills| ==> AllowedValuesOf(p).skillLabels[i] == p.skills[i].skillLabel
  {
    IdListsExact(p, x);
    var labels := SkillLabels(p);
    if x in labels {
      var i := IndexOf(labels, x);
      assert p.skills[i].skillLabel == x;
    }
  }

  /** Every allowed id is the id of one of the summarised entries. */
  lemma AllowedIdsSummarised(p: Profile, x: string)
    requires x in AllowedValuesOf(p).experienceIds
    ensures exists i :: 0 <= i < |ProfilePayloadOf(p).experience| && ProfilePayloadOf(p).experience[i].id == Some(x)
  {
    IdListsMembers(p, x);
    var i :| 0 <= i < |p.experience| && p.experience[i].id == Some(x);
    assert ProfilePayloadOf(p).experience[i].id == Some(x);
  }

  /**
   * A plan that uses only allowed values passes every unknown-value check:
   * the only error left for it is the empty-resume one.
   */
  lemma AllowedPlanOnlyRisksEmptyResume(p: Profile, plan: SelectionPlan)
    requires forall x :: x in plan.experienceIds ==> x in AllowedValuesOf(p).experienceIds
    requires forall x :: x in plan.projectIds ==> x in AllowedValuesOf(p).projectIds
    requires forall x :: x in plan.educationIds ==> x in AllowedValuesOf(p).educationIds
    requires forall x :: x in plan.skillLabels ==> x in AllowedValuesOf(p).skillLabels
    requires forall k :: k in OverrideKeys(plan) ==>
      k in AllowedValuesOf(p).experienceIds || k in AllowedValuesOf(p).projectIds || k in AllowedValuesOf(p).educationIds
    ensures Errors(p, plan) == EmptyErrors(plan, p)
  {
    UnknownErrorsEmpty(plan.experienceIds, ExperienceIds(p), id => IdMessage(ExperienceLabel, id));
    UnknownErrorsEmpty(plan.projectIds, ProjectIds(p), id => IdMessage(ProjectsLabel, id));
    UnknownErrorsEmpty(plan.educationIds, EducationIds(p), id => IdMessage(EducationLabel, id));
    UnknownErrorsEmpty(plan.skillLabels, SkillLabels(p), v => LabelMessage(SkillsLabel, v));
    UnknownErrorsEmpty(OverrideKeys(plan), EntryIds(p), OverrideMessage);
  }

  /**
   * Feedback changes nothing but the retry feedback: two invocations for
   * the same profile, job and excerpt length differ at most there.
   */
  lemma FeedbackOnlyChangesRetryField(p: Profile, job: Job, f1: seq<string>, f2: seq<string>, maxJobChars: int)
    ensures BuildSelectionInvocation(p, job, f1, maxJobChars).payload.(retryFeedback := None)
         == BuildSelectionInvocation(p, job, f2, maxJobChars).payload.(retryFeedback := None)
    ensures BuildSelectionInvocation(p, job, f1, maxJobChars).systemPrompt
         == BuildSelectionInvocation(p, job, f2, maxJobChars).systemPrompt
  {
  }
}
