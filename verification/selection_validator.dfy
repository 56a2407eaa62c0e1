/**
 * Strict validation of an LLM selection plan against the profile it selects
 * from: every referenced id and label must exist, and the plan must not
 * produce an empty resume.
 */
module SelectionValidator {

  import opened Wrappers
  import opened Seqs
  import opened Profiles

  // ---------------------------------------------------------------------
  // Messages
  // ---------------------------------------------------------------------

  /** `Unknown {label} id: '{id}'.` */
  function IdMessage(category: string, id: string): string {
    "Unknown " + category + " id: '" + id + "'."
  }

  /** `Unknown {label} label: '{value}'.` */
  function LabelMessage(category: string, value: string): string {
    "Unknown " + category + " label: '" + value + "'."
  }

  function OverrideMessage(key: string): string {
    "Unknown bullet_overrides id: '" + key + "'."
  }

  const EmptyResumeMessage: string := "Selection plan results in an empty resume."

  /** Category names as they appear in the messages. */
  const ExperienceLabel: string := "experience"
  const ProjectsLabel: string := "projects"
  const EducationLabel: string := "education"
  const SkillsLabel: string := "skills"

  // ---------------------------------------------------------------------
  // The checks
  // ---------------------------------------------------------------------

  /** One message per provided value outside `known`, in order, duplicates included. */
  function UnknownErrors(provided: seq<string>, known: seq<string>, msg: string -> string): seq<string>
    decreases |provided|
  {
    if provided == [] then []
    else
      (if provided[0] in known then [] else [msg(provided[0])])
      + UnknownErrors(provided[1..], known, msg)
  }

  /** `known_ids = {k for k in known if k}`, then one error per unknown id. */
  function IdErrors(provided: seq<string>, known: seq<string>, category: string): seq<string> {
    UnknownErrors(provided, known, id => IdMessage(category, id))
  }

  /** Skill labels are checked against all profile labels, unfiltered. */
  function LabelErrors(provided: seq<string>, known: seq<string>, category: string): seq<string> {
    UnknownErrors(provided, known, v => LabelMessage(category, v))
  }

  /** The non-empty ids of every experience, project and education entry. */
  function EntryIds(p: Profile): seq<string> {
    ExperienceIds(p) + ProjectIds(p) + EducationIds(p)
  }

  function OverrideErrors(plan: SelectionPlan, p: Profile): seq<string> {
    UnknownErrors(OverrideKeys(plan), EntryIds(p), OverrideMessage)
  }

  /**
   * The plan selects nothing and the profile has nothing to fall back on:
   * an empty plan list means "everything in that section", and it counts
   * as non-empty whenever the section has entries, with or without ids.
   */
  predicate EmptyResume(p: Profile, plan: SelectionPlan) {
    && plan.experienceIds == [] && p.experience == []
    && plan.projectIds == [] && p.projects == []
    && plan.educationIds == [] && p.education == []
    && plan.skillLabels == [] && p.skills == []
  }

  function EmptyErrors(plan: SelectionPlan, p: Profile): seq<string> {
    if EmptyResume(p, plan) then [EmptyResumeMessage] else []
  }

  /** Every validation error, in the order the checks run, with no short-circuit. */
  function Errors(p: Profile, plan: SelectionPlan): seq<string> {
    IdErrors(plan.experienceIds, ExperienceIds(p), ExperienceLabel)
    + IdErrors(plan.projectIds, ProjectIds(p), ProjectsLabel)
    + IdErrors(plan.educationIds, EducationIds(p), EducationLabel)
    + LabelErrors(plan.skillLabels, SkillLabels(p), SkillsLabel)
    + OverrideErrors(plan, p)
    + EmptyErrors(plan, p)
  }

  /** Why strict validation failed: the complete error list. */
  datatype ValidationFailure = ValidationFailure(errors: seq<string>)

  /**
   * `validate_selection_against_profile`: strict mode fails exactly when
   * some check failed and carries every error; lenient mode never fails.
   */
  function Validate(p: Profile, plan: SelectionPlan, strict: bool): (r: Result<(), ValidationFailure>)
    ensures r.Failure? <==> strict && !Consistent(p, plan)
    ensures r.Failure? ==> r.error.errors == Errors(p, plan) && r.error.errors != []
  {
    ErrorsEmptyIff(p, plan);
    var errs := Errors(p, plan);
    if errs != [] && strict then Failure(ValidationFailure(errs)) else Success(())
  }

  // ---------------------------------------------------------------------
  // What the checks mean
  // ---------------------------------------------------------------------

  /** The plan refers only to what the profile has and does not empty the resume. */
  predicate Consistent(p: Profile, plan: SelectionPlan) {
    && (forall x :: x in plan.experienceIds ==> HasExperienceId(p, x))
    && (forall x :: x in plan.projectIds ==> HasProjectId(p, x))
    && (forall x :: x in plan.educationIds ==> HasEducationId(p, x))
    && (forall x :: x in plan.skillLabels ==> x in SkillLabels(p))
    && (forall k :: k in OverrideKeys(plan) ==>
          HasExperienceId(p, k) || HasProjectId(p, k) || HasEducationId(p, k))
    && !EmptyResume(p, plan)
  }

  /**
   * The error list of one check is the message of every unknown value, in
   * the order and multiplicity the values are provided.
   */
  lemma {:induction false} UnknownErrorsSpec(provided: seq<string>, known: seq<string>, msg: string -> string)
    ensures UnknownErrors(provided, known, msg) == Map(msg, Filter(provided, x => x !in known))
    decreases |provided|
  {
    if provided != [] {
      UnknownErrorsSpec(provided[1..], known, msg);
    }
  }

  /** One check reports nothing iff every provided value is known. */
  lemma {:induction false} UnknownErrorsEmpty(provided: seq<string>, known: seq<string>, msg: string -> string)
    ensures UnknownErrors(provided, known, msg) == [] <==> forall x :: x in provided ==> x in known
    decreases |provided|
  {
    if provided != [] {
      UnknownErrorsEmpty(provided[1..], known, msg);
      assert provided == [provided[0]] + provided[1..];
    }
  }

  /** A value outside `known` has its message reported. */
  lemma {:induction false} UnknownReported(provided: seq<string>, known: seq<string>, msg: string -> string, x: string)
    requires x in provided && x !in known
    ensures msg(x) in UnknownErrors(provided, known, msg)
    decreases |provided|
  {
    if provided[0] != x {
      UnknownReported(provided[1..], known, msg, x);
    }
  }

  /** A bullet-override key is valid iff it is a non-empty id of some entry. */
  lemma EntryIdsExact(p: Profile, k: string)
    ensures k in EntryIds(p) <==> HasExperienceId(p, k) || HasProjectId(p, k) || HasEducationId(p, k)
  {
    IdListsMembers(p, k);
  }

  /** Validation reports no error iff the plan is consistent with the profile. */
  lemma ErrorsEmptyIff(p: Profile, plan: SelectionPlan)
    ensures Errors(p, plan) == [] <==> Consistent(p, plan)
  {
    UnknownErrorsEmpty(plan.experienceIds, ExperienceIds(p), id => IdMessage(ExperienceLabel, id));
    UnknownErrorsEmpty(plan.projectIds, ProjectIds(p), id => IdMessage(ProjectsLabel, id));
    UnknownErrorsEmpty(plan.educationIds, EducationIds(p), id => IdMessage(EducationLabel, id));
    UnknownErrorsEmpty(plan.skillLabels, SkillLabels(p), v => LabelMessage(SkillsLabel, v));
    UnknownErrorsEmpty(OverrideKeys(plan), EntryIds(p), OverrideMessage);
    forall x
      ensures (x in ExperienceIds(p) <==> HasExperienceId(p, x))
      ensures (x in ProjectIds(p) <==> HasProjectId(p, x))
      ensures (x in EducationIds(p) <==> HasEducationId(p, x))
      ensures (x in EntryIds(p) <==> HasExperienceId(p, x) || HasProjectId(p, x) || HasEducationId(p, x))
    {
      IdListsMembers(p, x);
    }
  }

  /**
   * An experience id of the plan that is not the non-empty id of a profile
   * experience is reported as an unknown experience id.
   */
  lemma UnknownExperienceReported(p: Profile, plan: SelectionPlan, x: string)
    requires x in plan.experienceIds && !HasExperienceId(p, x)
    ensures IdMessage(ExperienceLabel, x) in Errors(p, plan)
    ensures "Unknown experience id" <= IdMessage(ExperienceLabel, x)
  {
    ExperienceIdUnlisted(p, x);
    ExperienceMessagePrefix(x);
    IdReported(plan.experienceIds, ExperienceIds(p), ExperienceLabel, x);
    var e := IdErrors(plan.experienceIds, ExperienceIds(p), ExperienceLabel);
    assert Errors(p, plan)[..|e|] == e;
  }

  /** The unknown-experience message starts with "Unknown experience id". */
  lemma ExperienceMessagePrefix(x: string)
    ensures "Unknown experience id" <= IdMessage(ExperienceLabel, x)
  {
    assert IdMessage(ExperienceLabel, x) == "Unknown experience id" + (": '" + x + "'.");
  }

  /** A string that is no experience's non-empty id is not in the experience id list. */
  lemma ExperienceIdUnlisted(p: Profile, x: string)
    requires !HasExperienceId(p, x)
    ensures x !in ExperienceIds(p)
  {
    IdListsMembers(p, x);
  }

  /** An id outside `known` has its unknown-id message reported. */
  lemma IdReported(provided: seq<string>, known: seq<string>, category: string, x: string)
    requires x in provided && x !in known
    ensures IdMessage(category, x) in IdErrors(provided, known, category)
  {
    UnknownReported(provided, known, id => IdMessage(category, id), x);
  }

  /** An override key that names no entry is reported. */
  lemma UnknownOverrideReported(p: Profile, plan: SelectionPlan, k: string)
    requires k in OverrideKeys(plan)
    requires !HasExperienceId(p, k) && !HasProjectId(p, k) && !HasEducationId(p, k)
    ensures OverrideMessage(k) in Errors(p, plan)
  {
    EntryIdsExact(p, k);
    UnknownReported(OverrideKeys(plan), EntryIds(p), OverrideMessage, k);
  }

  /** Every message of an unknown-value check starts with the letter of "Unknown". */
  lemma {:induction false} UnknownErrorsPrefix(provided: seq<string>, known: seq<string>, msg: string -> string)
    requires forall x :: msg(x) != [] && msg(x)[0] == 'U'
    ensures forall m :: m in UnknownErrors(provided, known, msg) ==> m != [] && m[0] == 'U'
    decreases |provided|
  {
    if provided != [] {
      UnknownErrorsPrefix(provided[1..], known, msg);
    }
  }

  /** The empty-resume error is reported once if the resume would be empty, never otherwise. */
  lemma EmptyResumeOnce(p: Profile, plan: SelectionPlan)
    ensures multiset(Errors(p, plan))[EmptyResumeMessage] == if EmptyResume(p, plan) then 1 else 0
  {
    var unknown := IdErrors(plan.experienceIds, ExperienceIds(p), ExperienceLabel)
      + IdErrors(plan.projectIds, ProjectIds(p), ProjectsLabel)
      + IdErrors(plan.educationIds, EducationIds(p), EducationLabel)
      + LabelErrors(plan.skillLabels, SkillLabels(p), SkillsLabel)
      + OverrideErrors(plan, p);
    UnknownErrorsPrefix(plan.experienceIds, ExperienceIds(p), id => IdMessage(ExperienceLabel, id));
    UnknownErrorsPrefix(plan.projectIds, ProjectIds(p), id => IdMessage(ProjectsLabel, id));
    UnknownErrorsPrefix(plan.educationIds, EducationIds(p), id => IdMessage(EducationLabel, id));
    UnknownErrorsPrefix(plan.skillLabels, SkillLabels(p), v => LabelMessage(SkillsLabel, v));
    UnknownErrorsPrefix(OverrideKeys(plan), EntryIds(p), OverrideMessage);
    assert EmptyResumeMessage[0] == 'S';
    assert EmptyResumeMessage !in unknown;
    assert Errors(p, plan) == unknown + EmptyErrors(plan, p);
  }

  /**
   * Validation only reads ids, labels and override keys: the section order
   * and the override bullet texts never change the outcome.
   */
  lemma ErrorsIgnoreOrderAndBullets(p: Profile, plan: SelectionPlan, other: SelectionPlan)
    requires other.experienceIds == plan.experienceIds
    requires other.projectIds == plan.projectIds
    requires other.educationIds == plan.educationIds
    requires other.skillLabels == plan.skillLabels
    requires OverrideKeys(other) == OverrideKeys(plan)
    ensures Errors(p, other) == Errors(p, plan)
  {
  }
}
