/** The form reader of `generateResume`: the values of the personal fields and
    of every entry of the three repeatable sections, read into plain records.
    An input element that is missing from the page reads as the empty string,
    except a skill's level selector, which reads as `beginner`. */
module Records {
  import opened Wrappers

  /** The level a skill has when its selector is missing; also the selector's first option. */
  const DefaultLevel: string := "beginner"

  /** The inputs of one experience entry on the page: `None` where the element is missing. */
  datatype ExperienceInputs = ExperienceInputs(
    jobTitle: Option<string>, company: Option<string>,
    startDate: Option<string>, endDate: Option<string>,
    description: Option<string>)

  datatype EducationInputs = EducationInputs(
    degree: Option<string>, school: Option<string>,
    startDate: Option<string>, endDate: Option<string>)

  datatype SkillInputs = SkillInputs(name: Option<string>, level: Option<string>)

  /** The single-valued fields of the form, each `None` when its element is missing. */
  datatype PersonalInputs = PersonalInputs(
    fullName: Option<string>, jobTitle: Option<string>, email: Option<string>,
    phone: Option<string>, address: Option<string>, linkedin: Option<string>,
    summary: Option<string>)

  datatype ExperienceRecord = ExperienceRecord(
    jobTitle: string, company: string, startDate: string, endDate: string, description: string)

  datatype EducationRecord = EducationRecord(
    degree: string, school: string, startDate: string, endDate: string)

  datatype SkillRecord = SkillRecord(name: string, level: string)

  /** Everything `generateResume` reads before it renders. */
  datatype Profile = Profile(
    fullName: string, jobTitle: string, email: string, phone: string,
    address: string, linkedin: string, summary: string,
    experiences: seq<ExperienceRecord>, education: seq<EducationRecord>, skills: seq<SkillRecord>)

  /** `v` is what reading the element `o` gives: its value, or `''` when it is missing. */
  predicate ReadsAs(o: Option<string>, v: string)
  {
    (o.Some? ==> v == o.value) && (o.None? ==> v == "")
  }

  /** The value of an element, or the empty string when the element is missing. */
  function ValueOr(o: Option<string>): (v: string)
    ensures ReadsAs(o, v)
  {
    o.GetOr("")
  }

  /** One experience entry: every missing element reads as the empty string. */
  function ReadExperience(e: ExperienceInputs): (r: ExperienceRecord)
    ensures ReadsAs(e.jobTitle, r.jobTitle) && ReadsAs(e.company, r.company)
    ensures ReadsAs(e.startDate, r.startDate) && ReadsAs(e.endDate, r.endDate)
    ensures ReadsAs(e.description, r.description)
  {
    ExperienceRecord(ValueOr(e.jobTitle), ValueOr(e.company), ValueOr(e.startDate),
                     ValueOr(e.endDate), ValueOr(e.description))
  }

  function ReadEducation(e: EducationInputs): (r: EducationRecord)
    ensures ReadsAs(e.degree, r.degree) && ReadsAs(e.school, r.school)
    ensures ReadsAs(e.startDate, r.startDate) && ReadsAs(e.endDate, r.endDate)
  {
    EducationRecord(ValueOr(e.degree), ValueOr(e.school), ValueOr(e.startDate), ValueOr(e.endDate))
  }

  /** A skill's level is the selector's value, or `beginner` when the selector is missing. */
  function ReadSkill(e: SkillInputs): (r: SkillRecord)
    ensures r.name == ValueOr(e.name)
    ensures e.level.None? ==> r.level == DefaultLevel
    ensures e.level.Some? ==> r.level == e.level.value
  {
    SkillRecord(ValueOr(e.name), e.level.GetOr(DefaultLevel))
  }

  /** Reading every entry of a section, in page order. */
  function ReadAll<T, R>(read: T -> R, entries: seq<T>): (rs: seq<R>)
    ensures |rs| == |entries|
    ensures forall i :: 0 <= i < |entries| ==> rs[i] == read(entries[i])
  {
    seq(|entries|, i requires 0 <= i < |entries| => read(entries[i]))
  }

  function ReadProfile(personal: PersonalInputs, experiences: seq<ExperienceInputs>,
                       education: seq<EducationInputs>, skills: seq<SkillInputs>): (p: Profile)
    ensures ReadsAs(personal.fullName, p.fullName) && ReadsAs(personal.jobTitle, p.jobTitle)
    ensures ReadsAs(personal.email, p.email) && ReadsAs(personal.phone, p.phone)
    ensures ReadsAs(personal.address, p.address) && ReadsAs(personal.linkedin, p.linkedin)
    ensures ReadsAs(personal.summary, p.summary)
    ensures |p.experiences| == |experiences| && |p.education| == |education| && |p.skills| == |skills|
    ensures forall i :: 0 <= i < |experiences| ==> p.experiences[i] == ReadExperience(experiences[i])
    ensures forall i :: 0 <= i < |education| ==> p.education[i] == ReadEducation(education[i])
    ensures forall i :: 0 <= i < |skills| ==> p.skills[i] == ReadSkill(skills[i])
  {
    Profile(ValueOr(personal.fullName), ValueOr(personal.jobTitle), ValueOr(personal.email),
            ValueOr(personal.phone), ValueOr(personal.address), ValueOr(personal.linkedin),
            ValueOr(personal.summary),
            ReadAll(ReadExperience, experiences), ReadAll(ReadEducation, education),
            ReadAll(ReadSkill, skills))
  }

  /** The experience loop: one record pushed per entry, in page order. */
  method ReadExperiences(entries: seq<ExperienceInputs>) returns (rs: seq<ExperienceRecord>)
    ensures |rs| == |entries|
    ensures forall i :: 0 <= i < |entries| ==> rs[i] == ReadExperience(entries[i])
  {
    rs := [];
    for i := 0 to |entries|
      invariant |rs| == i
      invariant forall j :: 0 <= j < i ==> rs[j] == ReadExperience(entries[j])
    {
      rs := rs + [ReadExperience(entries[i])];
    }
  }

  method ReadEducations(entries: seq<EducationInputs>) returns (rs: seq<EducationRecord>)
    ensures |rs| == |entries|
    ensures forall i :: 0 <= i < |entries| ==> rs[i] == ReadEducation(entries[i])
  {
    rs := [];
    for i := 0 to |entries|
      invariant |rs| == i
      invariant forall j :: 0 <= j < i ==> rs[j] == ReadEducation(entries[j])
    {
      rs := rs + [ReadEducation(entries[i])];
    }
  }

  method ReadSkills(entries: seq<SkillInputs>) returns (rs: seq<SkillRecord>)
    ensures |rs| == |entries|
    ensures forall i :: 0 <= i < |entries| ==> rs[i] == ReadSkill(entries[i])
  {
    rs := [];
    for i := 0 to |entries|
      invariant |rs| == i
      invariant forall j :: 0 <= j < i ==> rs[j] == ReadSkill(entries[j])
    {
      rs := rs + [ReadSkill(entries[i])];
    }
  }

  /** The reading half of `generateResume`: the personal fields, then the three loops. */
  method ReadForm(personal: PersonalInputs, experiences: seq<ExperienceInputs>,
                  education: seq<EducationInputs>, skills: seq<SkillInputs>) returns (p: Profile)
    ensures p == ReadProfile(personal, experiences, education, skills)
  {
    var exps := ReadExperiences(experiences);
    var edus := ReadEducations(education);
    var sks := ReadSkills(skills);
    p := Profile(ValueOr(personal.fullName), ValueOr(personal.jobTitle), ValueOr(personal.email),
                 ValueOr(personal.phone), ValueOr(personal.address), ValueOr(personal.linkedin),
                 ValueOr(personal.summary), exps, edus, sks);
  }

  // ---------------------------------------------------------------------
  // What the reader gives

  /** An entry whose elements are all missing reads as all empty, and a skill
      with neither element as an unnamed beginner. */
  lemma MissingElementsReadEmpty()
    ensures ReadExperience(ExperienceInputs(None, None, None, None, None)) == ExperienceRecord("", "", "", "", "")
    ensures ReadEducation(EducationInputs(None, None, None, None)) == EducationRecord("", "", "", "")
    ensures ReadSkill(SkillInputs(None, None)) == SkillRecord("", DefaultLevel)
  {
  }

  /** Every field of every entry of the profile is the value of its element
      when present and the empty string otherwise; a skill's level is its
      selector's value, or `beginner` when the selector is missing. */
  lemma ReadProfileFields(personal: PersonalInputs, experiences: seq<ExperienceInputs>,
                          education: seq<EducationInputs>, skills: seq<SkillInputs>)
    ensures var p := ReadProfile(personal, experiences, education, skills);
      forall i :: 0 <= i < |experiences| ==>
        && ReadsAs(experiences[i].jobTitle, p.experiences[i].jobTitle)
        && ReadsAs(experiences[i].company, p.experiences[i].company)
        && ReadsAs(experiences[i].startDate, p.experiences[i].startDate)
        && ReadsAs(experiences[i].endDate, p.experiences[i].endDate)
        && ReadsAs(experiences[i].description, p.experiences[i].description)
    ensures var p := ReadProfile(personal, experiences, education, skills);
      forall i :: 0 <= i < |education| ==>
        && ReadsAs(education[i].degree, p.education[i].degree)
        && ReadsAs(education[i].school, p.education[i].school)
        && ReadsAs(education[i].startDate, p.education[i].startDate)
        && ReadsAs(education[i].endDate, p.education[i].endDate)
    ensures var p := ReadProfile(personal, experiences, education, skills);
      forall i :: 0 <= i < |skills| ==>
        && ReadsAs(skills[i].name, p.skills[i].name)
        && (skills[i].level.None? ==> p.skills[i].level == DefaultLevel)
        && (skills[i].level.Some? ==> p.skills[i].level == skills[i].level.value)
  {
  }
}
