# Resume builder: a verified model of its script

The resume builder is a single browser page. The user fills in personal
fields, adds or removes entries in three repeatable sections (work
experience, education, skills), and presses a button that renders a resume
preview. This project models the logic of the page's script, `script.js`,
in Dafny, and proves what that logic promises:

- **The text formatter** (`formatTextWithBullets`, module `Formatter`). It
  replaces every newline with `<br>`. Then the global replacement
  `/(^|<br>)([-*]\s*)(.+?)(?=<br>|$)/g` → `$1• $3` rewrites the
  `<br>`-delimited segments that start with `-` or `*`. A scanner follows
  the JavaScript regular-expression engine for this one pattern:
  - `^` is tried before `<br>`;
  - the greedy `\s*` gives characters back one at a time;
  - the lazy `.+?` needs at least one character and grows one at a time;
  - `.` refuses line terminators;
  - each new search starts where the previous match ended.

  The proofs are in `FormatterLemmas`.
- **The form reader** (first half of `generateResume`, module `Records`).
  It reads the personal fields and every entry of the three sections into
  plain records. A missing input element reads as the empty string; a
  missing level selector reads as `beginner`.
- **The renderer** (second half of `generateResume`, module `Render`). It
  produces the preview as a sequence of abstract blocks:
  - the header;
  - the summary;
  - the work experience, education and skills sections.

  Each block holds the text the page would show. `ResumeBlocks` is the
  specification. `RenderResume` and its helpers are the loops that build
  the same output. The proofs are in `RenderLemmas`.
- **The page** (module `Page`, class `ResumePage`). It holds the personal
  inputs, the three sections as sequences of entries, and the preview. Its
  methods are the handlers:
  - add an entry;
  - remove an entry (refused for a section's only entry);
  - seed empty sections (`initializeForm`);
  - reset the form;
  - generate the preview.

  Each page element the script looks up may be missing, and the handlers
  then skip what needs it. The proofs are in `PageLemmas`.

The header block is emitted on every call. So the output of
`generateResume` is never empty, and the placeholder fallback at the end of
`generateResume` never applies. An all-empty profile, including the one
read right after a reset on a page whose form and three section containers
exist, renders a header reading "Your Name" and nothing else (`RenderLemmas.EmptyProfileRendersHeaderOnly`,
`PageLemmas.GenerateAfterReset`). A reset does put the placeholder
paragraph into the preview, and the model keeps that (`ResumePage.ResetForm`).
The fallback suggests that an empty profile, or a reset followed by
generate, shows the placeholder prompt. The code never does that, and the
model follows the code.

## Model

| member | source | states |
|---|---|---|
| Formatter.FormatTextWithBullets | script.js:3-10 | An empty text formats to the empty string. |
| Formatter.ReplaceNewlines | script.js:6 | Every newline becomes the four characters of `<br>` and nothing else changes length: the result is three characters longer per newline. |
| Formatter.SpaceEnd | script.js:8 | The end of the `\s*` run lies between its start and the end of the text. |
| Formatter.LazyEndFrom | script.js:8 | A successful lazy body ends at or after the characters already taken, within the text. |
| Formatter.LazyEnd | script.js:8 | `.+?` takes at least one character: a successful body ends strictly after its start. |
| Formatter.TryBodies | script.js:8 | A body found while backtracking starts inside the `\s*` run and is a successful `.+?` from that start. |
| Formatter.MatchAfter | script.js:8 | A match after `$1` starts with its marker right there, and its body is non-empty. |
| Formatter.MatchAt | script.js:8 | A match found at a position lies after it, with the marker before a non-empty body. |
| Formatter.Bullets | script.js:8 | The global replacement only appends: the output produced so far is a prefix of the final output, never rewritten. |
| FormatterLemmas.SpaceEndIsLongestRun | script.js:8 | `\s*` is greedy: every character of the run is whitespace, and the run stops at the end or at a non-whitespace character. |
| FormatterLemmas.LazyEndFromIsShortest | script.js:8 | The lazy body stops at the first position where `(?=<br>\|$)` holds, and every character before it matches `.`. It fails only if a character that `.` refuses comes first. |
| FormatterLemmas.LazyEndIsShortest | script.js:8 | `.+?` takes at least one character, then stops at the first `<br>` or at the end. |
| FormatterLemmas.TryBodiesIsGreedy | script.js:8 | When `\s*` backtracks, it gives back as little as possible: every later body start fails. If no start works, no body can follow the marker at all. |
| FormatterLemmas.MatchAtIsPatternMatch | script.js:8 | Every match the scanner reports has the shape of the pattern: `$1` is the start of the text or a `<br>`, then a marker, then whitespace, then a non-empty run of `.` with no inner `<br>`, ending at a `<br>` or at the end. |
| FormatterLemmas.MatchAtComplete | script.js:8 | The converse: wherever the pattern can match from a position (`$1` the start of the text or a `<br>`, a marker, whitespace, a non-empty run of `.` with no inner `<br>`, then a `<br>` or the end), the scanner reports a match there. |
| FormatterLemmas.NoMatchWithoutBulletStart | script.js:8 | No match can start where no segment begins with a marker. |
| FormatterLemmas.CountBrReplaceNewlines | script.js:6 | Replacing newlines adds exactly one `<br>` per newline, whatever text comes before. |
| FormatterLemmas.CountBrBullets | script.js:8 | The bullet rewrite neither adds nor removes a `<br>`. |
| FormatterLemmas.ReplaceNewlinesNoNewline | script.js:6 | No newline is left after the replacement. |
| FormatterLemmas.FormatHasNoNewline | script.js:3-10 | The formatted text contains no newline. |
| FormatterLemmas.FormatLineBreaks | script.js:3-10 | The formatted text has exactly as many `<br>` as the input had `<br>` plus newlines. |
| FormatterLemmas.SegmentsBulleted | script.js:8 | From a segment start to the end of the text, the scan outputs each remaining segment rewritten by `BulletLine`, with the `<br>` between segments kept, provided every segment is regular. |
| FormatterLemmas.BulletsBySegment | script.js:8 | If every segment is regular, the whole rewrite works segment by segment: a segment that starts with a marker has the marker and the whitespace after it replaced by `• `, and the rest is kept verbatim. |
| FormatterLemmas.ReplaceNewlinesJoin | script.js:6 | Lines joined by newlines come out joined by `<br>`. |
| FormatterLemmas.SegmentsOfJoin | script.js:8 | A `<br>`-joined text whose lines hold no `<` splits back into exactly those lines. |
| FormatterLemmas.FormatLines | script.js:3-10 | A text area whose lines are regular and hold no `<` is formatted line by line: each bulleted line gets `• ` in place of its marker and the whitespace after it, and the lines are joined by `<br>`. |
| FormatterLemmas.FormatIdempotent | script.js:3-10 | If no line starts with a marker, formatting only replaces newlines, and formatting the result again changes nothing. |
| FormatterLemmas.BareMarkerSwallowsNextLine | script.js:8 | `"-\n-x"` formats to `"• <br>-x"`. `.+?` needs one character, so the match runs across the `<br>`, and the second line is not bulleted. |
| FormatterLemmas.SpaceMarkerSwallowsNextLine | script.js:8 | `"- \n-x"` formats to `"• <br>-x"`. `\s*` stops at the `<br>`, `.+?` takes it, and the second line is not bulleted. |
| FormatterLemmas.TrailingSpaceKept | script.js:8 | `"- "` formats to `"•  "`. `\s*` gives back its space so that `.+?` has a character. |
| FormatterLemmas.BulletedLine | script.js:3-10 | `"*  Led team"` formats to `"• Led team"`. |
| Records.ValueOr | script.js:163-182 | A field reads as its element's value when the element exists, and as the empty string otherwise (`ReadsAs`). |
| Records.ReadExperience | script.js:187-199 | Each of the five fields of an experience entry is its element's value, or the empty string when the element is missing. |
| Records.ReadEducation | script.js:205-215 | Each of the four fields of an education entry is its element's value, or the empty string when the element is missing. |
| Records.ReadProfile | script.js:161-228 | Each of the seven personal fields is its element's value or the empty string. Each section holds, in page order, one record per entry, read by that section's entry reader. |
| Records.ReadSkill | script.js:221-227 | A skill's name is read like any field. Its level is the selector's value, or `beginner` when the selector is missing. |
| Records.ReadAll | script.js:185-228 | A section reads as one record per entry, in page order. |
| Records.ReadExperiences | script.js:185-200 | The experience loop pushes, in page order, one record per entry, each read with empty-string defaults. |
| Records.ReadEducations | script.js:203-216 | The education loop pushes, in page order, one record per entry. |
| Records.ReadSkills | script.js:219-228 | The skills loop pushes, in page order, one record per entry, with the level default. |
| Records.ReadForm | script.js:161-228 | The reading half of `generateResume` computes the same profile as the reader specification `ReadProfile`. |
| Records.MissingElementsReadEmpty | script.js:187-227 | An entry whose input elements are all missing reads as all empty strings. A skill reads as an unnamed `beginner`. |
| Records.ReadProfileFields | script.js:185-228 | Every field of every entry in the profile is its element's value, or the empty string when the element is missing. A skill's level is its selector's value, or `beginner` when the selector is missing. |
| Render.Shown | script.js:234 | A conditional template part is present exactly when its string is non-empty, and then it shows that string. |
| Render.DisplayName | script.js:233 | The heading is never empty. It is the full name when there is one. |
| Render.DateLine | script.js:268-269 | The date line appears exactly when either date is non-empty, and it reads `start - end`. |
| Render.ExperienceItem | script.js:264-273 | An item shows the job title and the company exactly when they are non-empty, the date line exactly when either date is non-empty, and the description, bulleted, exactly when it is non-empty. |
| Render.EducationItem | script.js:291-300 | An item shows the degree and the school exactly when they are non-empty, the date line exactly when either date is non-empty, and never a description. |
| Render.SkillTag | script.js:319 | The tag starts with the skill's name, and it is the name alone exactly when the level is `beginner`. |
| Render.ResumeBlocks | script.js:230-328 | The preview is never empty, and its first block is the header. |
| Render.AnyExperienceShown | script.js:255 | The `some` test is true exactly when an entry has a job title or a company. |
| Render.AnyEducationShown | script.js:282 | The `some` test is true exactly when an entry has a degree or a school. |
| Render.AnySkillShown | script.js:308 | The `some` test is true exactly when a skill has a name. |
| Render.RenderExperienceItems | script.js:262-276 | The `forEach` loop appends exactly the items that the specification `ExperienceItems` lists. |
| Render.RenderEducationItems | script.js:289-302 | The `forEach` loop appends exactly the items that the specification `EducationItems` lists. |
| Render.RenderSkillTags | script.js:316-322 | The `forEach` loop appends exactly the tags that the specification `SkillTags` lists. |
| Render.RenderExperienceSection | script.js:254-279 | The experience section is emitted, with its items, exactly when some entry has a job title or a company. |
| Render.RenderEducationSection | script.js:281-305 | The education section is emitted, with its items, exactly when some entry has a degree or a school. |
| Render.RenderSkillsSection | script.js:307-328 | The skills section is emitted, with its tags, exactly when some skill has a name. |
| Render.RenderResume | script.js:230-328 | The rendering loops build exactly the blocks of the specification `ResumeBlocks`. |
| RenderLemmas.HasExperienceIffItems | script.js:255-276 | The experience `some` test holds exactly when the loop emits at least one item. |
| RenderLemmas.HasEducationIffItems | script.js:282-302 | The education `some` test holds exactly when the loop emits at least one item. |
| RenderLemmas.HasSkillsIffTags | script.js:308-322 | The skills `some` test holds exactly when the loop emits at least one tag. |
| RenderLemmas.ExperienceItemsConcat | script.js:262-276 | Rendering two runs of entries gives the items of each run, in order. |
| RenderLemmas.ExperienceEntryEffect | script.js:263 | An entry with neither job title nor company leaves the section unchanged. Any other entry adds exactly its item, at its place. |
| RenderLemmas.EducationItemsConcat | script.js:289-302 | Rendering two runs of education entries gives the items of each run, in order. |
| RenderLemmas.EducationEntryEffect | script.js:290 | An entry with neither degree nor school is skipped. Any other entry adds exactly its item, at its place. |
| RenderLemmas.SkillTagsConcat | script.js:316-322 | Rendering two runs of skills gives the tags of each run, in order. |
| RenderLemmas.SkillEntryEffect | script.js:317 | A skill without a name is skipped. Any other skill adds exactly its tag, at its place. |
| RenderLemmas.ExperienceItemsFromEntries | script.js:262-276 | Every item comes from an entry with a job title or a company, and so shows a title or a subtitle. There are no more items than entries. |
| RenderLemmas.EducationItemsFromEntries | script.js:289-302 | Every item comes from an entry with a degree or a school, and so shows a title or a subtitle. There are no more items than entries. |
| RenderLemmas.HeaderShows | script.js:231-242 | The header shows the full name, or "Your Name" when it is empty, and the job title exactly when it is non-empty. It has one contact line per non-empty contact field and no other line: at most four lines, each showing its own field's text, in the template's order email, phone, address, LinkedIn, so no kind appears twice. |
| RenderLemmas.ResumeHeaderOnce | script.js:230-328 | The preview has one to five blocks, and the header comes first and nowhere else. |
| RenderLemmas.ResumeMembers | script.js:244-328 | Every block after the header belongs to a section that has content. |
| RenderLemmas.ResumeHasSections | script.js:244-328 | Every section that has content has its block in the preview. |
| RenderLemmas.ResumeSectionsPresent | script.js:244-328 | Each section's block appears exactly when the section has content: a non-empty summary, or an entry with content. |
| RenderLemmas.ResumeSectionsNonEmpty | script.js:254-328 | A section block never comes without items or tags. |
| RenderLemmas.EmptyProfileRendersHeaderOnly | script.js:230-242 | With every field and entry empty, whatever the number of entries, the preview is exactly a header reading "Your Name" with no job title and no contacts. |
| RenderLemmas.TitleOnlyExperience | script.js:262-276 | An experience with only a job title renders as an item with that title and no date, company or description. |
| RenderLemmas.SkillTagExamples | script.js:319 | For every name: the tag of a `beginner` skill is the name alone, and for every other level it is the name followed by ` (level)`. A skill whose level selector is missing shows its name alone. |
| Page.PreviewOf | script.js:333 | The preview is the placeholder paragraph exactly when the output is empty. Otherwise it is the output. |
| Page.Cleared | script.js:137 | A form reset empties every field that exists. |
| Page.RemoveAt | script.js:54 | Removing one entry keeps every other entry, in order, and loses exactly that entry. |
| Page.ResumePage.constructor | script.js:1 | The page as loaded holds its fields, sections and preview as given. Its entries come from the markup, so none has a remove listener, and only a section whose container exists has entries. |
| Page.ResumePage.AddExperienceEntry | script.js:27-46 | When the container exists, one blank removable entry is appended and the others are unchanged. Otherwise nothing changes. The at-least-one-entry floor is kept. |
| Page.ResumePage.AddEducationEntry | script.js:63-81 | When the container exists, one blank removable entry is appended and the others are unchanged. Otherwise nothing changes. The at-least-one-entry floor is kept. |
| Page.ResumePage.AddSkillEntry | script.js:98-117 | When the container exists, one blank removable entry, with level `beginner`, is appended. Otherwise nothing changes. The floor is kept. |
| Page.ResumePage.RemoveExperienceEntry | script.js:49-58 | With more than one entry, the clicked entry is removed and the others keep their order. A section's only entry is refused (the alert), and nothing changes. The section is never left empty, and the floor is kept. |
| Page.ResumePage.RemoveEducationEntry | script.js:84-93 | Removes the clicked entry when there is more than one. Otherwise it refuses and nothing changes. The section is never emptied, and the floor is kept. |
| Page.ResumePage.RemoveSkillEntry | script.js:120-129 | Removes the clicked entry when there is more than one. Otherwise it refuses and nothing changes. The section is never emptied, and the floor is kept. |
| Page.ResumePage.InitializeForm | script.js:13-24 | Only a section with no entry gets one blank entry, and only when its container exists. Afterwards, every section with a container has an entry. |
| Page.ResumePage.ResetForm | script.js:134-158 | Every existing field is emptied. Every section with a container holds exactly one blank entry, so the floor holds afterwards. The preview shows the placeholder paragraph. |
| Page.ResumePage.GenerateResume | script.js:161-335 | The preview becomes the blocks rendered from the profile read from the page, so it is never the placeholder. |
| PageLemmas.RemoveUndoesAdd | script.js:46-58 | Removing the entry just added restores the section. |
| PageLemmas.RemoveKeepsOthers | script.js:53-54 | A removal from a section of two or more entries leaves at least one, and every other entry is kept. |
| PageLemmas.BlankEntriesRenderNothing | script.js:36-45 | A freshly added entry reads as empty fields (a skill as an unnamed `beginner`), so it is skipped by the renderer. |
| PageLemmas.PreviewNeverPlaceholder | script.js:331-334 | The placeholder fallback never applies to the output of `generateResume`. |
| PageLemmas.GenerateAfterReset | script.js:134-158 | Right after a reset on a page whose form and three section containers exist, the page reads as an all-empty profile, and generating shows the "Your Name" header, not the placeholder. |
| PageLemmas.ResetThenGenerate | script.js:134-335 | Reset followed by generate, on a page that has every element, leaves the preview showing a header reading "Your Name" alone. |

## Left out

- Page elements are looked up through the DOM and changed by creating, appending, removing and rewriting elements. The model instead has a flag per looked-up element saying whether it exists, and keeps each section's entries as a sequence.
- Registration of event listeners, and the wiring of the buttons at page load, are left out. The handlers are methods that callers invoke.
- The `alert` and `console.error` side effects are not modelled. A removal returns its outcome instead, and an add returns whether it added an entry.
- The download button is an alert stub with no behaviour, and it is not part of this model.
- The HTML template text is not modelled: element classes, icons, whitespace and the per-contact `<div>` layout. A block holds only the text the page shows. User text is kept unescaped, as the script does not escape it.
- The browser's `form.reset()` is taken to empty every field. Typing into a field is not an operation of the model; the fields are state that callers set.
- Entries are assumed to sit in their own container, and the page as loaded has entries only in sections whose container exists. The script counts a section's entries over the whole document when it checks whether one may be removed, and when it checks whether seeding is needed.
- Entries that were on the page before the script ran have no remove listener. Clicking their remove button does nothing (`NoListener`).
- Text values are strings. The `!text` test for `undefined` or `null` input is not modelled, because every field the script reads is a string (a missing element already reads as the empty string).
- A character is a Unicode code point, not a UTF-16 code unit. The two agree on everything the pattern distinguishes.
- FormatterLemmas.FormatLines: proved only for regular lines that hold no `<`. A `<br>` typed by the user would split a line into two segments. A line is not regular when its marker is followed by nothing but whitespace, or when its text holds a line terminator that `.` refuses (`\r`, U+2028, U+2029). In the first case the match runs into the next line: `"-\n-x"` formats to `"• <br>-x"` (`BareMarkerSwallowsNextLine`), and `"- \n-x"` does the same (`SpaceMarkerSwallowsNextLine`).
- FormatterLemmas.BulletsBySegment: requires every segment to be regular, in the sense above. A segment whose marker is followed by nothing but whitespace behaves as `BareMarkerSwallowsNextLine` and `TrailingSpaceKept` show.
