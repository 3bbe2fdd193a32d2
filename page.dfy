/** The page the script drives: the personal fields, the three repeatable
    sections (experience, education, skills) and the preview, with the
    handlers that add, remove, seed and reset entries and the one that
    generates the preview.  Each page element the script looks up may be
    missing; the handlers then skip what needs it. */
module Page {
  import opened Wrappers
  import opened Formatter
  import opened Records
  import opened Render

  /** What the preview shows after a reset. */
  const PlaceholderHtml: string := "<p>Fill out the form to see your resume preview</p>"

  /** The content of the preview: a fixed piece of markup, or rendered blocks. */
  datatype Preview = Markup(html: string) | Rendered(blocks: seq<Block>)

  /** `resumeHTML || placeholder`: the placeholder only for an empty output. */
  function PreviewOf(blocks: seq<Block>): (v: Preview)
    ensures v == Markup(PlaceholderHtml) <==> blocks == []
    ensures blocks != [] ==> v == Rendered(blocks)
  {
    if blocks == [] then Markup(PlaceholderHtml) else Rendered(blocks)
  }

  /** An entry element of a section: its inputs, and whether its remove button
      has a click listener (only entries built by the add handlers have one). */
  datatype Entry<T> = Entry(inputs: T, removable: bool)

  /** What a click on an entry's remove button does. */
  datatype RemoveOutcome =
    | Removed           // the entry is taken out of its section
    | RefusedLastEntry  // the alert: the section keeps its only entry
    | NoListener        // the button has no handler; nothing happens

  /** The inputs of a freshly added entry: every element present and empty, the
      level selector on its first option. */
  const BlankExperience: ExperienceInputs := ExperienceInputs(Some(""), Some(""), Some(""), Some(""), Some(""))
  const BlankEducation: EducationInputs := EducationInputs(Some(""), Some(""), Some(""), Some(""))
  const BlankSkill: SkillInputs := SkillInputs(Some(""), Some(DefaultLevel))

  /** A field after the form's reset: an element that exists holds the empty string. */
  function Cleared(o: Option<string>): (r: Option<string>)
    ensures r.Some? <==> o.Some?
    ensures ValueOr(r) == ""
  {
    if o.Some? then Some("") else None
  }

  function ClearedInputs(f: PersonalInputs): PersonalInputs
  {
    PersonalInputs(Cleared(f.fullName), Cleared(f.jobTitle), Cleared(f.email), Cleared(f.phone),
                   Cleared(f.address), Cleared(f.linkedin), Cleared(f.summary))
  }

  function InputsOf<T>(entries: seq<Entry<T>>): (r: seq<T>)
    ensures |r| == |entries|
    ensures forall i :: 0 <= i < |entries| ==> r[i] == entries[i].inputs
  {
    seq(|entries|, i requires 0 <= i < |entries| => entries[i].inputs)
  }

  /** The section without its entry at `i`: the entries before it and after it
      keep their order, and nothing else is lost. */
  function RemoveAt<T>(s: seq<T>, i: nat): (r: seq<T>)
    requires i < |s|
    ensures |r| == |s| - 1
    ensures forall j :: 0 <= j < i ==> r[j] == s[j]
    ensures forall j :: i <= j < |r| ==> r[j] == s[j + 1]
    ensures multiset(r) + multiset{s[i]} == multiset(s)
  {
    assert s == s[..i] + [s[i]] + s[i + 1..];
    s[..i] + s[i + 1..]
  }

  class ResumePage {
    /** Which of the looked-up elements exist on the page. */
    const hasForm: bool
    const hasExperienceFields: bool
    const hasEducationFields: bool
    const hasSkillsFields: bool
    const hasPreview: bool

    var personal: PersonalInputs
    var experience: seq<Entry<ExperienceInputs>>
    var education: seq<Entry<EducationInputs>>
    var skills: seq<Entry<SkillInputs>>
    var preview: Preview

    /** Every section whose container exists holds at least one entry. */
    ghost predicate Floor()
      reads this
    {
      && (hasExperienceFields ==> experience != [])
      && (hasEducationFields ==> education != [])
      && (hasSkillsFields ==> skills != [])
    }

    /** The profile `generateResume` reads from the page as it stands. */
    ghost function CurrentProfile(): Profile
      reads this
    {
      ReadProfile(personal, InputsOf(experience), InputsOf(education), InputsOf(skills))
    }

    /** The page as loaded, before the script runs: its entries are part of the
        page's markup, so none has a remove listener, and a section has entries
        only when its container exists. */
    constructor (hasForm: bool, hasExperienceFields: bool, hasEducationFields: bool,
                 hasSkillsFields: bool, hasPreview: bool, personal: PersonalInputs,
                 experience: seq<Entry<ExperienceInputs>>, education: seq<Entry<EducationInputs>>,
                 skills: seq<Entry<SkillInputs>>, preview: Preview)
      requires forall e :: e in experience ==> !e.removable
      requires forall e :: e in education ==> !e.removable
      requires forall e :: e in skills ==> !e.removable
      requires !hasExperienceFields ==> experience == []
      requires !hasEducationFields ==> education == []
      requires !hasSkillsFields ==> skills == []
      ensures this.hasForm == hasForm && this.hasExperienceFields == hasExperienceFields
      ensures this.hasEducationFields == hasEducationFields && this.hasSkillsFields == hasSkillsFields
      ensures this.hasPreview == hasPreview && this.personal == personal
      ensures this.experience == experience && this.education == education
      ensures this.skills == skills && this.preview == preview
    {
      this.hasForm := hasForm;
      this.hasExperienceFields := hasExperienceFields;
      this.hasEducationFields := hasEducationFields;
      this.hasSkillsFields := hasSkillsFields;
      this.hasPreview := hasPreview;
      this.personal := personal;
      this.experience := experience;
      this.education := education;
      this.skills := skills;
      this.preview := preview;
    }

    // -------------------------------------------------------------------
    // Adding entries

    /** A blank entry with a working remove button is appended when the
        container exists; otherwise nothing changes (the console error). */
    method AddExperienceEntry() returns (added: bool)
      modifies this`experience
      ensures added == hasExperienceFields
      ensures experience == if added then old(experience) + [Entry(BlankExperience, true)] else old(experience)
      ensures old(Floor()) ==> Floor()
    {
      added := hasExperienceFields;
      if added {
        experience := experience + [Entry(BlankExperience, true)];
      }
    }

    method AddEducationEntry() returns (added: bool)
      modifies this`education
      ensures added == hasEducationFields
      ensures education == if added then old(education) + [Entry(BlankEducation, true)] else old(education)
      ensures old(Floor()) ==> Floor()
    {
      added := hasEducationFields;
      if added {
        education := education + [Entry(BlankEducation, true)];
      }
    }

    method AddSkillEntry() returns (added: bool)
      modifies this`skills
      ensures added == hasSkillsFields
      ensures skills == if added then old(skills) + [Entry(BlankSkill, true)] else old(skills)
      ensures old(Floor()) ==> Floor()
    {
      added := hasSkillsFields;
      if added {
        skills := skills + [Entry(BlankSkill, true)];
      }
    }

    // -------------------------------------------------------------------
    // Removing entries

    /** A click on the remove button of entry `i`: the handler takes the entry
        out when the section has more than one, and otherwise alerts and keeps it.
        A section is never emptied this way. */
    method RemoveExperienceEntry(i: nat) returns (outcome: RemoveOutcome)
      requires i < |experience|
      modifies this`experience
      ensures outcome == (if !old(experience)[i].removable then NoListener
                          else if |old(experience)| > 1 then Removed else RefusedLastEntry)
      ensures experience == if outcome == Removed then RemoveAt(old(experience), i) else old(experience)
      ensures experience != []
      ensures old(Floor()) ==> Floor()
    {
      if !experience[i].removable {
        outcome := NoListener;
      } else if |experience| > 1 {
        experience := RemoveAt(experience, i);
        outcome := Removed;
      } else {
        outcome := RefusedLastEntry;
      }
    }

    method RemoveEducationEntry(i: nat) returns (outcome: RemoveOutcome)
      requires i < |education|
      modifies this`education
      ensures outcome == (if !old(education)[i].removable then NoListener
                          else if |old(education)| > 1 then Removed else RefusedLastEntry)
      ensures education == if outcome == Removed then RemoveAt(old(education), i) else old(education)
      ensures education != []
      ensures old(Floor()) ==> Floor()
    {
      if !education[i].removable {
        outcome := NoListener;
      } else if |education| > 1 {
        education := RemoveAt(education, i);
        outcome := Removed;
      } else {
        outcome := RefusedLastEntry;
      }
    }

    method RemoveSkillEntry(i: nat) returns (outcome: RemoveOutcome)
      requires i < |skills|
      modifies this`skills
      ensures outcome == (if !old(skills)[i].removable then NoListener
                          else if |old(skills)| > 1 then Removed else RefusedLastEntry)
      ensures skills == if outcome == Removed then RemoveAt(old(skills), i) else old(skills)
      ensures skills != []
      ensures old(Floor()) ==> Floor()
    {
      if !skills[i].removable {
        outcome := NoListener;
      } else if |skills| > 1 {
        skills := RemoveAt(skills, i);
        outcome := Removed;
      } else {
        outcome := RefusedLastEntry;
      }
    }

    // -------------------------------------------------------------------
    // Seeding and resetting

    /** `initializeForm`: a section with no entry gets one blank entry, when its
        container exists; a section that has entries is left alone. */
    method InitializeForm()
      modifies this`experience, this`education, this`skills
      ensures experience == if old(experience) == [] && hasExperienceFields then [Entry(BlankExperience, true)] else old(experience)
      ensures education == if old(education) == [] && hasEducationFields then [Entry(BlankEducation, true)] else old(education)
      ensures skills == if old(skills) == [] && hasSkillsFields then [Entry(BlankSkill, true)] else old(skills)
      ensures Floor()
    {
      if experience == [] {
        var _ := AddExperienceEntry();
      }
      if education == [] {
        var _ := AddEducationEntry();
      }
      if skills == [] {
        var _ := AddSkillEntry();
      }
    }

    /** `resetForm`: the form's fields are emptied, every section that has a
        container holds exactly one blank entry, and the preview shows the
        placeholder again. */
    method ResetForm()
      modifies this`personal, this`experience, this`education, this`skills, this`preview
      ensures personal == if hasForm then ClearedInputs(old(personal)) else old(personal)
      ensures experience == if hasExperienceFields then [Entry(BlankExperience, true)] else old(experience)
      ensures education == if hasEducationFields then [Entry(BlankEducation, true)] else old(education)
      ensures skills == if hasSkillsFields then [Entry(BlankSkill, true)] else old(skills)
      ensures preview == if hasPreview then Markup(PlaceholderHtml) else old(preview)
      ensures Floor()
    {
      if hasForm {
        personal := ClearedInputs(personal);
      }
      if hasExperienceFields {
        experience := [];
      }
      if hasEducationFields {
        education := [];
      }
      if hasSkillsFields {
        skills := [];
      }
      var _ := AddExperienceEntry();
      var _ := AddEducationEntry();
      var _ := AddSkillEntry();
      if hasPreview {
        preview := Markup(PlaceholderHtml);
      }
    }

    // -------------------------------------------------------------------
    // Generating the preview

    /** `generateResume`: read the page, render it, and show the result.  The
        output always holds the header, so the preview is never the placeholder. */
    method GenerateResume()
      modifies this`preview
      ensures preview == if hasPreview then Rendered(ResumeBlocks(CurrentProfile())) else old(preview)
      ensures hasPreview ==> preview != Markup(PlaceholderHtml)
    {
      var p := ReadForm(personal, InputsOf(experience), InputsOf(education), InputsOf(skills));
      var blocks := RenderResume(p);
      if hasPreview {
        preview := PreviewOf(blocks);
      }
    }
  }
}
