/** The rendering half of `generateResume`: which blocks of the preview appear
    and what text each shows.  The markup around the text (element classes,
    icons, template whitespace) is not modelled; a block holds its text as the
    page would show it, user text interpolated unescaped. */
module Render {
  import opened Wrappers
  import opened Formatter
  import opened Records

  /** The heading shown when the full name is empty. */
  const NamePlaceholder: string := "Your Name"

  datatype ContactKind = EmailContact | PhoneContact | AddressContact | LinkedInContact

  datatype Contact = Contact(kind: ContactKind, text: string)

  /** One entry of the experience or education section.  `description` holds the
      formatted description (always `None` in the education section). */
  datatype Item = Item(title: Option<string>, dates: Option<string>,
                       subtitle: Option<string>, description: Option<string>)

  datatype Block =
    | Header(name: string, jobTitle: Option<string>, contacts: seq<Contact>)
    | Summary(html: string)
    | WorkExperience(items: seq<Item>)
    | Education(items: seq<Item>)
    | Skills(tags: seq<string>)

  /** A template part that is shown only for a non-empty (truthy) string. */
  function Shown(s: string): (r: Option<string>)
    ensures r.Some? <==> s != ""
    ensures r.Some? ==> r.value == s
  {
    if s == "" then None else Some(s)
  }

  function DisplayName(fullName: string): (name: string)
    ensures name != ""
    ensures fullName != "" ==> name == fullName
  {
    if fullName == "" then NamePlaceholder else fullName
  }

  /** The contact lines, in the template's order, each only when its value is non-empty. */
  function Contacts(p: Profile): seq<Contact>
  {
    (if p.email != "" then [Contact(EmailContact, p.email)] else [])
    + (if p.phone != "" then [Contact(PhoneContact, p.phone)] else [])
    + (if p.address != "" then [Contact(AddressContact, p.address)] else [])
    + (if p.linkedin != "" then [Contact(LinkedInContact, p.linkedin)] else [])
  }

  /** The header: the name or its placeholder, the job title when non-empty, the contacts. */
  function HeaderBlock(p: Profile): Block
  {
    Header(DisplayName(p.fullName), Shown(p.jobTitle), Contacts(p))
  }

  /** The date line `start - end`, shown when either date is non-empty. */
  function DateLine(start: string, end: string): (r: Option<string>)
    ensures r.Some? <==> start != "" || end != ""
    ensures r.Some? ==> r.value == start + " - " + end
  {
    if start != "" || end != "" then Some(start + " - " + end) else None
  }

  // ---------------------------------------------------------------------
  // Work experience

  /** An experience entry is rendered when it has a job title or a company. */
  predicate ShowsExperience(r: ExperienceRecord)
  {
    r.jobTitle != "" || r.company != ""
  }

  /** What an experience item shows: the title and the company when non-empty,
      the date line when either date is non-empty, and the description,
      bulleted, when non-empty. */
  function ExperienceItem(r: ExperienceRecord): (it: Item)
    ensures it.title.Some? <==> r.jobTitle != ""
    ensures it.subtitle.Some? <==> r.company != ""
    ensures it.title.Some? ==> it.title.value == r.jobTitle
    ensures it.subtitle.Some? ==> it.subtitle.value == r.company
    ensures it.dates == DateLine(r.startDate, r.endDate)
    ensures it.description.Some? <==> r.description != ""
    ensures it.description.Some? ==> it.description.value == FormatTextWithBullets(r.description)
  {
    Item(Shown(r.jobTitle), DateLine(r.startDate, r.endDate), Shown(r.company),
         if r.description != "" then Some(FormatTextWithBullets(r.description)) else None)
  }

  /** The items of the rendered entries, in page order. */
  function ExperienceItems(rs: seq<ExperienceRecord>): seq<Item>
  {
    if rs == [] then []
    else ExperienceItems(rs[..|rs| - 1])
         + (if ShowsExperience(rs[|rs| - 1]) then [ExperienceItem(rs[|rs| - 1])] else [])
  }

  /** `experiences.some(exp => exp.jobTitle || exp.company)`. */
  predicate HasExperience(rs: seq<ExperienceRecord>)
  {
    exists i :: 0 <= i < |rs| && ShowsExperience(rs[i])
  }

  // ---------------------------------------------------------------------
  // Education

  predicate ShowsEducation(r: EducationRecord)
  {
    r.degree != "" || r.school != ""
  }

  /** What an education item shows: degree, school and date line as for an
      experience, and never a description. */
  function EducationItem(r: EducationRecord): (it: Item)
    ensures it.title.Some? <==> r.degree != ""
    ensures it.subtitle.Some? <==> r.school != ""
    ensures it.title.Some? ==> it.title.value == r.degree
    ensures it.subtitle.Some? ==> it.subtitle.value == r.school
    ensures it.dates == DateLine(r.startDate, r.endDate)
    ensures it.description.None?
  {
    Item(Shown(r.degree), DateLine(r.startDate, r.endDate), Shown(r.school), None)
  }

  function EducationItems(rs: seq<EducationRecord>): seq<Item>
  {
    if rs == [] then []
    else EducationItems(rs[..|rs| - 1])
         + (if ShowsEducation(rs[|rs| - 1]) then [EducationItem(rs[|rs| - 1])] else [])
  }

  predicate HasEducation(rs: seq<EducationRecord>)
  {
    exists i :: 0 <= i < |rs| && ShowsEducation(rs[i])
  }

  // ---------------------------------------------------------------------
  // Skills

  predicate ShowsSkill(r: SkillRecord)
  {
    r.name != ""
  }

  /** The tag text: the name, and ` (level)` after it unless the level is `beginner`. */
  function SkillTag(r: SkillRecord): (tag: string)
    ensures |r.name| <= |tag| && tag[..|r.name|] == r.name
    ensures tag == r.name <==> r.level == DefaultLevel
  {
    r.name + (if r.level != DefaultLevel then " (" + r.level + ")" else "")
  }

  function SkillTags(rs: seq<SkillRecord>): seq<string>
  {
    if rs == [] then []
    else SkillTags(rs[..|rs| - 1])
         + (if ShowsSkill(rs[|rs| - 1]) then [SkillTag(rs[|rs| - 1])] else [])
  }

  predicate HasSkills(rs: seq<SkillRecord>)
  {
    exists i :: 0 <= i < |rs| && ShowsSkill(rs[i])
  }

  // ---------------------------------------------------------------------
  // The whole preview

  /** The blocks `generateResume` builds, in order: the header always, then
      the summary, work experience, education and skills when they have content. */
  function ResumeBlocks(p: Profile): (blocks: seq<Block>)
    ensures blocks != [] && blocks[0] == HeaderBlock(p)
  {
    [HeaderBlock(p)]
    + (if p.summary != "" then [Summary(FormatTextWithBullets(p.summary))] else [])
    + (if HasExperience(p.experiences) then [WorkExperience(ExperienceItems(p.experiences))] else [])
    + (if HasEducation(p.education) then [Education(EducationItems(p.education))] else [])
    + (if HasSkills(p.skills) then [Skills(SkillTags(p.skills))] else [])
  }

  // ---------------------------------------------------------------------
  // The rendering loops

  /** The `some` test of the experience section, scanning until a rendered entry is found. */
  method AnyExperienceShown(rs: seq<ExperienceRecord>) returns (found: bool)
    ensures found <==> exists i :: 0 <= i < |rs| && ShowsExperience(rs[i])
  {
    found := false;
    var i := 0;
    while i < |rs| && !found
      invariant 0 <= i <= |rs|
      invariant found <==> exists j :: 0 <= j < i && ShowsExperience(rs[j])
    {
      found := ShowsExperience(rs[i]);
      i := i + 1;
    }
  }

  /** The `forEach` of the experience section: an item appended per rendered entry. */
  method RenderExperienceItems(rs: seq<ExperienceRecord>) returns (items: seq<Item>)
    ensures items == ExperienceItems(rs)
  {
    items := [];
    for i := 0 to |rs|
      invariant items == ExperienceItems(rs[..i])
    {
      assert rs[..i + 1][..i] == rs[..i];
      if ShowsExperience(rs[i]) {
        items := items + [ExperienceItem(rs[i])];
      }
    }
    assert rs[..|rs|] == rs;
  }

  method AnyEducationShown(rs: seq<EducationRecord>) returns (found: bool)
    ensures found <==> exists i :: 0 <= i < |rs| && ShowsEducation(rs[i])
  {
    found := false;
    var i := 0;
    while i < |rs| && !found
      invariant 0 <= i <= |rs|
      invariant found <==> exists j :: 0 <= j < i && ShowsEducation(rs[j])
    {
      found := ShowsEducation(rs[i]);
      i := i + 1;
    }
  }

  method RenderEducationItems(rs: seq<EducationRecord>) returns (items: seq<Item>)
    ensures items == EducationItems(rs)
  {
    items := [];
    for i := 0 to |rs|
      invariant items == EducationItems(rs[..i])
    {
      assert rs[..i + 1][..i] == rs[..i];
      if ShowsEducation(rs[i]) {
        items := items + [EducationItem(rs[i])];
      }
    }
    assert rs[..|rs|] == rs;
  }

  method AnySkillShown(rs: seq<SkillRecord>) returns (found: bool)
    ensures found <==> exists i :: 0 <= i < |rs| && ShowsSkill(rs[i])
  {
    found := false;
    var i := 0;
    while i < |rs| && !found
      invariant 0 <= i <= |rs|
      invariant found <==> exists j :: 0 <= j < i && ShowsSkill(rs[j])
    {
      found := ShowsSkill(rs[i]);
      i := i + 1;
    }
  }

  method RenderSkillTags(rs: seq<SkillRecord>) returns (tags: seq<string>)
    ensures tags == SkillTags(rs)
  {
    tags := [];
    for i := 0 to |rs|
      invariant tags == SkillTags(rs[..i])
    {
      assert rs[..i + 1][..i] == rs[..i];
      if ShowsSkill(rs[i]) {
        tags := tags + [SkillTag(rs[i])];
      }
    }
    assert rs[..|rs|] == rs;
  }

  /** The experience section: the `some` test, then the items when it holds. */
  method RenderExperienceSection(rs: seq<ExperienceRecord>) returns (part: seq<Block>)
    ensures part == if HasExperience(rs) then [WorkExperience(ExperienceItems(rs))] else []
  {
    part := [];
    var hasExperiences := AnyExperienceShown(rs);
    if hasExperiences {
      var items := RenderExperienceItems(rs);
      part := [WorkExperience(items)];
    }
  }

  method RenderEducationSection(rs: seq<EducationRecord>) returns (part: seq<Block>)
    ensures part == if HasEducation(rs) then [Education(EducationItems(rs))] else []
  {
    part := [];
    var hasEducation := AnyEducationShown(rs);
    if hasEducation {
      var items := RenderEducationItems(rs);
      part := [Education(items)];
    }
  }

  method RenderSkillsSection(rs: seq<SkillRecord>) returns (part: seq<Block>)
    ensures part == if HasSkills(rs) then [Skills(SkillTags(rs))] else []
  {
    part := [];
    var hasSkills := AnySkillShown(rs);
    if hasSkills {
      var tags := RenderSkillTags(rs);
      part := [Skills(tags)];
    }
  }

  /** `generateResume` from the header on: each section appended to the output
      when its `some` test holds. */
  method RenderResume(p: Profile) returns (blocks: seq<Block>)
    ensures blocks == ResumeBlocks(p)
  {
    blocks := [HeaderBlock(p)];
    if p.summary != "" {
      blocks := blocks + [Summary(FormatTextWithBullets(p.summary))];
    }
    var experience := RenderExperienceSection(p.experiences);
    blocks := blocks + experience;
    var education := RenderEducationSection(p.education);
    blocks := blocks + education;
    var skills := RenderSkillsSection(p.skills);
    blocks := blocks + skills;
  }
}
