/** What the page handlers promise together: removing the entry just added
    restores the section, a blank entry renders nothing, and generating the
    preview right after a reset shows a header reading "Your Name", not the
    placeholder the reset put there. */
module PageLemmas {
  import opened Wrappers
  import opened Records
  import opened Render
  import opened RenderLemmas
  import opened Page

  /** Removing the entry that was appended last gives the section back as it was. */
  lemma RemoveUndoesAdd<T>(s: seq<T>, x: T)
    ensures RemoveAt(s + [x], |s|) == s
  {
    var r := RemoveAt(s + [x], |s|);
    assert forall j :: 0 <= j < |s| ==> r[j] == (s + [x])[j];
  }

  /** Removing from a section of two or more entries leaves at least one, and
      keeps every other entry. */
  lemma RemoveKeepsOthers<T>(s: seq<T>, i: nat)
    requires i < |s| && |s| > 1
    ensures RemoveAt(s, i) != []
    ensures forall j :: 0 <= j < |s| && j != i ==> s[j] in RemoveAt(s, i)
  {
    var r := RemoveAt(s, i);
    forall j | 0 <= j < |s| && j != i
      ensures s[j] in r
    {
      if j < i {
        assert r[j] == s[j];
      } else {
        assert r[j - 1] == s[j];
      }
    }
  }

  /** A freshly added entry reads as empty fields (a skill as an unnamed
      beginner), so it adds nothing to the preview. */
  lemma BlankEntriesRenderNothing()
    ensures ReadExperience(BlankExperience) == ExperienceRecord("", "", "", "", "")
    ensures ReadEducation(BlankEducation) == EducationRecord("", "", "", "")
    ensures ReadSkill(BlankSkill) == SkillRecord("", DefaultLevel)
    ensures !ShowsExperience(ReadExperience(BlankExperience))
    ensures !ShowsEducation(ReadEducation(BlankEducation))
    ensures !ShowsSkill(ReadSkill(BlankSkill))
  {
  }

  /** The output of `generateResume` always holds the header, so the preview is
      never set to the placeholder. */
  lemma PreviewNeverPlaceholder(p: Profile)
    ensures PreviewOf(ResumeBlocks(p)) == Rendered(ResumeBlocks(p))
    ensures PreviewOf(ResumeBlocks(p)) != Markup(PlaceholderHtml)
  {
  }

  /** The page right after a reset, when the form and every container exist. */
  function ProfileAfterReset(f: PersonalInputs): Profile
  {
    ReadProfile(ClearedInputs(f), InputsOf([Entry(BlankExperience, true)]),
                InputsOf([Entry(BlankEducation, true)]), InputsOf([Entry(BlankSkill, true)]))
  }

  /** Generating right after a reset reads an all-empty profile and renders the
      header alone, with the name placeholder: the preview does not go back to
      the placeholder paragraph. */
  lemma GenerateAfterReset(f: PersonalInputs)
    ensures ProfileAfterReset(f) == EmptyProfile(1, 1, 1)
    ensures PreviewOf(ResumeBlocks(ProfileAfterReset(f))) == Rendered([Header(NamePlaceholder, None, [])])
    ensures PreviewOf(ResumeBlocks(ProfileAfterReset(f))) != Markup(PlaceholderHtml)
  {
    var p := ProfileAfterReset(f);
    BlankEntriesRenderNothing();
    assert p.experiences == [ExperienceRecord("", "", "", "", "")];
    assert p.education == [EducationRecord("", "", "", "")];
    assert p.skills == [SkillRecord("", DefaultLevel)];
    assert p == EmptyProfile(1, 1, 1);
    EmptyProfileRendersHeaderOnly(1, 1, 1);
  }

  /** Reset followed by generate on a page with the form, the three containers
      and the preview. */
  method ResetThenGenerate(page: ResumePage)
    requires page.hasForm && page.hasExperienceFields && page.hasEducationFields
    requires page.hasSkillsFields && page.hasPreview
    modifies page
    ensures page.preview == Rendered([Header(NamePlaceholder, None, [])])
  {
    page.ResetForm();
    ghost var f := old(page.personal);
    assert page.CurrentProfile() == ProfileAfterReset(f);
    page.GenerateResume();
    GenerateAfterReset(f);
  }
}
