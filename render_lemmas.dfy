/** What the renderer promises: the header always comes first and the preview
    is never empty; a section appears exactly when one of its entries has
    content, and then never without items; entries without a title or
    company (a name, for skills) are skipped and the others kept in order. */
module RenderLemmas {
  import opened Wrappers
  import opened Formatter
  import opened Records
  import opened Render

  // ---------------------------------------------------------------------
  // Sections and their items

  /** The `some` test holds exactly when the section has an item. */
  lemma {:induction false} HasExperienceIffItems(rs: seq<ExperienceRecord>)
    ensures HasExperience(rs) <==> ExperienceItems(rs) != []
  {
    if rs != [] {
      var init := rs[..|rs| - 1];
      HasExperienceIffItems(init);
      if HasExperience(init) {
        var i :| 0 <= i < |init| && ShowsExperience(init[i]);
        assert rs[i] == init[i];
      }
      if HasExperience(rs) && !ShowsExperience(rs[|rs| - 1]) {
        var i :| 0 <= i < |rs| && ShowsExperience(rs[i]);
        assert init[i] == rs[i];
      }
    }
  }

  lemma {:induction false} HasEducationIffItems(rs: seq<EducationRecord>)
    ensures HasEducation(rs) <==> EducationItems(rs) != []
  {
    if rs != [] {
      var init := rs[..|rs| - 1];
      HasEducationIffItems(init);
      if HasEducation(init) {
        var i :| 0 <= i < |init| && ShowsEducation(init[i]);
        assert rs[i] == init[i];
      }
      if HasEducation(rs) && !ShowsEducation(rs[|rs| - 1]) {
        var i :| 0 <= i < |rs| && ShowsEducation(rs[i]);
        assert init[i] == rs[i];
      }
    }
  }

  lemma {:induction false} HasSkillsIffTags(rs: seq<SkillRecord>)
    ensures HasSkills(rs) <==> SkillTags(rs) != []
  {
    if rs != [] {
      var init := rs[..|rs| - 1];
      HasSkillsIffTags(init);
      if HasSkills(init) {
        var i :| 0 <= i < |init| && ShowsSkill(init[i]);
        assert rs[i] == init[i];
      }
      if HasSkills(rs) && !ShowsSkill(rs[|rs| - 1]) {
        var i :| 0 <= i < |rs| && ShowsSkill(rs[i]);
        assert init[i] == rs[i];
      }
    }
  }

  /** Rendering the entries of two runs of the page is rendering each run. */
  lemma {:induction false} ExperienceItemsConcat(a: seq<ExperienceRecord>, b: seq<ExperienceRecord>)
    ensures ExperienceItems(a + b) == ExperienceItems(a) + ExperienceItems(b)
    decreases |b|
  {
    if b == [] {
      assert a + b == a;
    } else {
      var init := b[..|b| - 1];
      assert (a + b)[..|a + b| - 1] == a + init;
      ExperienceItemsConcat(a, init);
    }
  }

  /** An entry with neither job title nor company leaves the section as it was,
      and one with either adds exactly its item at its place. */
  lemma ExperienceEntryEffect(a: seq<ExperienceRecord>, r: ExperienceRecord, b: seq<ExperienceRecord>)
    ensures !ShowsExperience(r) ==> ExperienceItems(a + [r] + b) == ExperienceItems(a + b)
    ensures ShowsExperience(r) ==>
      ExperienceItems(a + [r] + b) == ExperienceItems(a) + [ExperienceItem(r)] + ExperienceItems(b)
  {
    ExperienceItemsConcat(a + [r], b);
    ExperienceItemsConcat(a, [r]);
    ExperienceItemsConcat(a, b);
    assert ExperienceItems([r]) == ExperienceItems([]) + (if ShowsExperience(r) then [ExperienceItem(r)] else []) by {
      assert [r][..0] == [];
    }
  }

  lemma {:induction false} EducationItemsConcat(a: seq<EducationRecord>, b: seq<EducationRecord>)
    ensures EducationItems(a + b) == EducationItems(a) + EducationItems(b)
    decreases |b|
  {
    if b == [] {
      assert a + b == a;
    } else {
      var init := b[..|b| - 1];
      assert (a + b)[..|a + b| - 1] == a + init;
      EducationItemsConcat(a, init);
    }
  }

  lemma EducationEntryEffect(a: seq<EducationRecord>, r: EducationRecord, b: seq<EducationRecord>)
    ensures !ShowsEducation(r) ==> EducationItems(a + [r] + b) == EducationItems(a + b)
    ensures ShowsEducation(r) ==>
      EducationItems(a + [r] + b) == EducationItems(a) + [EducationItem(r)] + EducationItems(b)
  {
    EducationItemsConcat(a + [r], b);
    EducationItemsConcat(a, [r]);
    EducationItemsConcat(a, b);
    assert EducationItems([r]) == EducationItems([]) + (if ShowsEducation(r) then [EducationItem(r)] else []) by {
      assert [r][..0] == [];
    }
  }

  lemma {:induction false} SkillTagsConcat(a: seq<SkillRecord>, b: seq<SkillRecord>)
    ensures SkillTags(a + b) == SkillTags(a) + SkillTags(b)
    decreases |b|
  {
    if b == [] {
      assert a + b == a;
    } else {
      var init := b[..|b| - 1];
      assert (a + b)[..|a + b| - 1] == a + init;
      SkillTagsConcat(a, init);
    }
  }

  lemma SkillEntryEffect(a: seq<SkillRecord>, r: SkillRecord, b: seq<SkillRecord>)
    ensures !ShowsSkill(r) ==> SkillTags(a + [r] + b) == SkillTags(a + b)
    ensures ShowsSkill(r) ==> SkillTags(a + [r] + b) == SkillTags(a) + [SkillTag(r)] + SkillTags(b)
  {
    SkillTagsConcat(a + [r], b);
    SkillTagsConcat(a, [r]);
    SkillTagsConcat(a, b);
    assert SkillTags([r]) == SkillTags([]) + (if ShowsSkill(r) then [SkillTag(r)] else []) by {
      assert [r][..0] == [];
    }
  }

  /** Every item of the section is the item of an entry with a job title or a
      company, so it shows at least one of the two. */
  lemma {:induction false} ExperienceItemsFromEntries(rs: seq<ExperienceRecord>)
    ensures |ExperienceItems(rs)| <= |rs|
    ensures forall k :: 0 <= k < |ExperienceItems(rs)| ==>
      exists i :: 0 <= i < |rs| && ShowsExperience(rs[i]) && ExperienceItems(rs)[k] == ExperienceItem(rs[i])
    ensures forall k :: 0 <= k < |ExperienceItems(rs)| ==>
      ExperienceItems(rs)[k].title.Some? || ExperienceItems(rs)[k].subtitle.Some?
  {
    if rs != [] {
      var init := rs[..|rs| - 1];
      var last := rs[|rs| - 1];
      ExperienceItemsFromEntries(init);
      var before := ExperienceItems(init);
      var items := ExperienceItems(rs);
      assert items == before + (if ShowsExperience(last) then [ExperienceItem(last)] else []);
      forall k | 0 <= k < |items|
        ensures exists i :: 0 <= i < |rs| && ShowsExperience(rs[i]) && items[k] == ExperienceItem(rs[i])
        ensures items[k].title.Some? || items[k].subtitle.Some?
      {
        if k < |before| {
          assert items[k] == before[k];
          var i :| 0 <= i < |init| && ShowsExperience(init[i]) && before[k] == ExperienceItem(init[i]);
          assert rs[i] == init[i];
        } else {
          assert items[k] == ExperienceItem(last);
        }
      }
    }
  }

  lemma {:induction false} EducationItemsFromEntries(rs: seq<EducationRecord>)
    ensures |EducationItems(rs)| <= |rs|
    ensures forall k :: 0 <= k < |EducationItems(rs)| ==>
      exists i :: 0 <= i < |rs| && ShowsEducation(rs[i]) && EducationItems(rs)[k] == EducationItem(rs[i])
    ensures forall k :: 0 <= k < |EducationItems(rs)| ==>
      EducationItems(rs)[k].title.Some? || EducationItems(rs)[k].subtitle.Some?
  {
    if rs != [] {
      var init := rs[..|rs| - 1];
      var last := rs[|rs| - 1];
      EducationItemsFromEntries(init);
      var before := EducationItems(init);
      var items := EducationItems(rs);
      assert items == before + (if ShowsEducation(last) then [EducationItem(last)] else []);
      forall k | 0 <= k < |items|
        ensures exists i :: 0 <= i < |rs| && ShowsEducation(rs[i]) && items[k] == EducationItem(rs[i])
        ensures items[k].title.Some? || items[k].subtitle.Some?
      {
        if k < |before| {
          assert items[k] == before[k];
          var i :| 0 <= i < |init| && ShowsEducation(init[i]) && before[k] == EducationItem(init[i]);
          assert rs[i] == init[i];
        } else {
          assert items[k] == EducationItem(last);
        }
      }
    }
  }

  // ---------------------------------------------------------------------
  // The whole preview

  /** The profile field a contact line of kind `k` shows. */
  function FieldText(p: Profile, k: ContactKind): string
  {
    match k
    case EmailContact => p.email
    case PhoneContact => p.phone
    case AddressContact => p.address
    case LinkedInContact => p.linkedin
  }

  /** Position of a contact kind in the template: email, phone, address, LinkedIn. */
  function KindRank(k: ContactKind): nat
  {
    match k
    case EmailContact => 0
    case PhoneContact => 1
    case AddressContact => 2
    case LinkedInContact => 3
  }

  /** `cs` shows each line's own field, in template order, with every kind ranked below `n`. */
  predicate RankedBelow(p: Profile, cs: seq<Contact>, n: nat)
  {
    && (forall c :: c in cs ==> c.text == FieldText(p, c.kind) && KindRank(c.kind) < n)
    && (forall i, j :: 0 <= i < j < |cs| ==> KindRank(cs[i].kind) < KindRank(cs[j].kind))
  }

  /** The contact line of kind `k`, present only when its field is non-empty. */
  function LineOf(p: Profile, k: ContactKind): seq<Contact>
  {
    if FieldText(p, k) != "" then [Contact(k, FieldText(p, k))] else []
  }

  /** Appending the optional line of the next kind keeps the lines in order. */
  lemma ExtendRanked(p: Profile, cs: seq<Contact>, k: ContactKind)
    requires RankedBelow(p, cs, KindRank(k))
    ensures RankedBelow(p, cs + LineOf(p, k), KindRank(k) + 1)
  {
  }

  lemma ContactsAsLines(p: Profile)
    ensures Contacts(p)
      == LineOf(p, EmailContact) + LineOf(p, PhoneContact) + LineOf(p, AddressContact) + LineOf(p, LinkedInContact)
  {
  }

  lemma ContactsRanked(p: Profile)
    ensures RankedBelow(p, Contacts(p), 4)
  {
    var c1 := LineOf(p, EmailContact);
    var c2 := c1 + LineOf(p, PhoneContact);
    var c3 := c2 + LineOf(p, AddressContact);
    ExtendRanked(p, [], EmailContact);
    assert [] + c1 == c1;
    ExtendRanked(p, c1, PhoneContact);
    ExtendRanked(p, c2, AddressContact);
    ExtendRanked(p, c3, LinkedInContact);
    ContactsAsLines(p);
  }

  lemma ContactsPresent(p: Profile)
    ensures var cs := Contacts(p);
      && |cs| <= 4 && (forall c :: c in cs ==> c.text != "")
      && (Contact(EmailContact, p.email) in cs <==> p.email != "")
      && (Contact(PhoneContact, p.phone) in cs <==> p.phone != "")
      && (Contact(AddressContact, p.address) in cs <==> p.address != "")
      && (Contact(LinkedInContact, p.linkedin) in cs <==> p.linkedin != "")
  {
  }

  /** The header shows the name, or "Your Name" when it is empty, the job title
      when it is non-empty, and one contact line for each non-empty contact
      field, each line showing its field's text, in the template's order (so
      no kind appears twice). */
  lemma HeaderShows(p: Profile)
    ensures var h := HeaderBlock(p);
      && h.Header? && h.name == (if p.fullName == "" then NamePlaceholder else p.fullName)
      && (h.jobTitle.Some? <==> p.jobTitle != "")
      && (h.jobTitle.Some? ==> h.jobTitle.value == p.jobTitle)
    ensures var cs := HeaderBlock(p).contacts;
      && |cs| <= 4 && (forall c :: c in cs ==> c.text != "")
      && (Contact(EmailContact, p.email) in cs <==> p.email != "")
      && (Contact(PhoneContact, p.phone) in cs <==> p.phone != "")
      && (Contact(AddressContact, p.address) in cs <==> p.address != "")
      && (Contact(LinkedInContact, p.linkedin) in cs <==> p.linkedin != "")
    ensures var cs := HeaderBlock(p).contacts;
      && (forall c :: c in cs ==> c.text == FieldText(p, c.kind))
      && (forall i, j :: 0 <= i < j < |cs| ==> KindRank(cs[i].kind) < KindRank(cs[j].kind))
  {
    assert HeaderBlock(p).contacts == Contacts(p);
    ContactsPresent(p);
    ContactsRanked(p);
  }

  /** The header comes first and only there, and the preview has at most one block per section. */
  lemma ResumeHeaderOnce(p: Profile)
    ensures var blocks := ResumeBlocks(p);
      && 1 <= |blocks| <= 5 && blocks[0] == HeaderBlock(p)
      && forall i :: 0 < i < |blocks| ==> !blocks[i].Header?
  {
  }

  /** Every block of the preview is the header or the block of a section with content. */
  lemma ResumeMembers(p: Profile)
    ensures forall b :: b in ResumeBlocks(p) ==>
      || b == HeaderBlock(p)
      || (p.summary != "" && b == Summary(FormatTextWithBullets(p.summary)))
      || (HasExperience(p.experiences) && b == WorkExperience(ExperienceItems(p.experiences)))
      || (HasEducation(p.education) && b == Education(EducationItems(p.education)))
      || (HasSkills(p.skills) && b == Skills(SkillTags(p.skills)))
  {
  }

  /** Each section with content has its block in the preview. */
  lemma ResumeHasSections(p: Profile)
    ensures p.summary != "" ==> Summary(FormatTextWithBullets(p.summary)) in ResumeBlocks(p)
    ensures HasExperience(p.experiences) ==> WorkExperience(ExperienceItems(p.experiences)) in ResumeBlocks(p)
    ensures HasEducation(p.education) ==> Education(EducationItems(p.education)) in ResumeBlocks(p)
    ensures HasSkills(p.skills) ==> Skills(SkillTags(p.skills)) in ResumeBlocks(p)
  {
  }

  /** Each section's block appears exactly when one of its entries has content. */
  lemma ResumeSectionsPresent(p: Profile)
    ensures (exists b :: b in ResumeBlocks(p) && b.Summary?) <==> p.summary != ""
    ensures (exists b :: b in ResumeBlocks(p) && b.WorkExperience?) <==> HasExperience(p.experiences)
    ensures (exists b :: b in ResumeBlocks(p) && b.Education?) <==> HasEducation(p.education)
    ensures (exists b :: b in ResumeBlocks(p) && b.Skills?) <==> HasSkills(p.skills)
  {
    ResumeFirstSectionsPresent(p);
    ResumeLastSectionsPresent(p);
  }

  lemma ResumeFirstSectionsPresent(p: Profile)
    ensures (exists b :: b in ResumeBlocks(p) && b.Summary?) <==> p.summary != ""
    ensures (exists b :: b in ResumeBlocks(p) && b.WorkExperience?) <==> HasExperience(p.experiences)
  {
    ResumeMembers(p);
    ResumeHasSections(p);
  }

  lemma ResumeLastSectionsPresent(p: Profile)
    ensures (exists b :: b in ResumeBlocks(p) && b.Education?) <==> HasEducation(p.education)
    ensures (exists b :: b in ResumeBlocks(p) && b.Skills?) <==> HasSkills(p.skills)
  {
    ResumeMembers(p);
    ResumeHasSections(p);
  }

  /** A section's block never comes without items. */
  lemma ResumeSectionsNonEmpty(p: Profile)
    ensures forall b :: b in ResumeBlocks(p) && (b.WorkExperience? || b.Education?) ==> b.items != []
    ensures forall b :: b in ResumeBlocks(p) && b.Skills? ==> b.tags != []
  {
    ResumeMembers(p);
    HasExperienceIffItems(p.experiences);
    HasEducationIffItems(p.education);
    HasSkillsIffTags(p.skills);
  }

  /** The profile read from a page whose fields and entries are all empty. */
  function EmptyProfile(n: nat, m: nat, k: nat): Profile
  {
    Profile("", "", "", "", "", "", "",
            seq(n, _ => ExperienceRecord("", "", "", "", "")),
            seq(m, _ => EducationRecord("", "", "", "")),
            seq(k, _ => SkillRecord("", DefaultLevel)))
  }

  /** With nothing filled in, whatever the number of blank entries, the preview
      is a header reading "Your Name" and nothing else — never an empty output. */
  lemma EmptyProfileRendersHeaderOnly(n: nat, m: nat, k: nat)
    ensures ResumeBlocks(EmptyProfile(n, m, k)) == [Header(NamePlaceholder, None, [])]
  {
    var p := EmptyProfile(n, m, k);
    assert !HasExperience(p.experiences);
    assert !HasEducation(p.education);
    assert !HasSkills(p.skills);
    assert Contacts(p) == [];
    assert HeaderBlock(p) == Header(NamePlaceholder, None, []);
  }

  // ---------------------------------------------------------------------
  // Examples

  /** An experience with only a job title renders as an item titled with it,
      with no date line, company or description. */
  lemma TitleOnlyExperience()
    ensures var p := Profile("", "", "", "", "", "", "", [ExperienceRecord("Engineer", "", "", "", "")], [], []);
      ResumeBlocks(p) == [Header(NamePlaceholder, None, []),
                          WorkExperience([Item(Some("Engineer"), None, None, None)])]
  {
    var r := ExperienceRecord("Engineer", "", "", "", "");
    var p := Profile("", "", "", "", "", "", "", [r], [], []);
    assert ShowsExperience(p.experiences[0]);
    assert [r][..0] == [];
    assert ExperienceItems([r]) == [ExperienceItem(r)];
    assert ExperienceItem(r) == Item(Some("Engineer"), None, None, None);
    assert HeaderBlock(p) == Header(NamePlaceholder, None, []);
    assert !HasEducation([]) && !HasSkills([]);
  }

  /** The tag of a skill shows its level, in parentheses after the name, unless
      the level is `beginner`; a skill whose level selector is missing shows its
      name alone. */
  lemma SkillTagExamples(name: string)
    ensures SkillTag(SkillRecord(name, DefaultLevel)) == name
    ensures forall l :: l != DefaultLevel ==> SkillTag(SkillRecord(name, l)) == name + " (" + l + ")"
    ensures SkillTag(SkillRecord("Go", "expert")) == "Go (expert)"
    ensures SkillTag(SkillRecord("Go", "beginner")) == "Go"
    ensures SkillTag(ReadSkill(SkillInputs(Some(name), None))) == name
  {
  }
}
