# CV Craft: the ATS scoring engine and its surrounding rules, in Dafny

This project models the resume application's deterministic ATS (applicant tracking
system) scoring engine, and proves properties of the model. It also models the small rule
sets built around the engine.

The engine is `src/app/atsEngine.js`:
- Four analyzers turn a resume into bounded sub-scores with diagnostics:
  - keyword coverage, out of 35;
  - section completeness, out of 25;
  - experience quality, out of 20;
  - formatting signals, out of 20.
- The breakdown clamps and rounds their sum into a total of 0 to 100. It also builds a
  prioritised list of at most eight improvement areas.
- The export-readiness checklist yields a 0/25/50/75/100 completeness score and the list
  of missing entries.

Around the engine the project models:
- the resume store's reducer, with its seven actions, and the dot-path helpers
  `getNestedValue` / `setNestedValue`;
- the per-section tips;
- the export page's gate: the `canExport` rule, the blocker reasons, the initials and the
  date ranges;
- the template gallery filter;
- the score panel's bands and bars;
- the free-text editor's completion percentage.

Modelling choices:
- A resume is a datatype whose fields are all present. An absent field is represented by
  the empty string or the empty sequence.
- Ratios and scores are exact `real`s.
- `Math.round(x)` is `floor(x + 1/2)`.
- Lower- and upper-casing act on ASCII letters only.
- The reducer works on the resume as a JSON-like `Value`, because its actions address
  sections and fields by name. The clock (`new Date().toISOString()`) and the default
  resume are parameters of the reducer.

Code that builds its result step by step is modelled as a method. Such a method is proved
equal to a specification function, and the properties are lemmas about that function.
These methods are:
- `getResumeReadiness`;
- `getSectionCompleteness`;
- the issue list of `getExperienceQuality`;
- the signal lists of `getFormattingSignals`;
- the clone-and-walk loop of `setNestedValue`;
- `sectionTips`;
- `blockerReasons`.

Where the repository's own description and its code disagree, the model follows the code:
- **Missing skills.** The description gives an example in which a declared skill is
  reported missing. In the code, the collected text embeds the skills list itself, so no
  skill is ever missing. `KeywordCoverage.MissingSkillsAlwaysEmpty` proves this.
- **Empty resume.** The description says the all-empty resume has four missing readiness
  entries. The code reports the full name and the headline separately, so there are five.
  `ExportReadiness.EmptyResumeReadiness` proves this.

## Model

| member | source | states |
|---|---|---|
| AtsText.Clamp | src/app/atsEngine.js:77 | The result never exceeds the upper bound and is at least the lower bound. It is the value itself inside the range, the lower bound below it and the upper bound above it. |
| AtsText.RoundNearest | src/app/atsEngine.js:447-452 | `Math.round` lands within one half of its argument, and leaves an integer as it is. |
| AtsText.NormalizeText | src/app/atsEngine.js:80 | The normalized text has the length of the input and no upper-case letter; normalizing it again changes nothing. |
| AtsText.CollectResumeText | src/app/atsEngine.js:155-165 | The collected text has no upper-case letter. It opens with the normalized summary and a space, and ends with the normalized, space-joined skills. |
| AtsText.SkillsOccurInText | src/app/atsEngine.js:155-165 | Every declared skill, lower-cased, occurs in the collected resume text. |
| AtsText.CollectedTextGrows | src/app/atsEngine.js:155-165 | Declaring one more skill only extends the collected text: the old text is a prefix of the new one. |
| AtsText.EmptyResumeText | src/app/atsEngine.js:155-165 | The all-empty resume collects three spaces and nothing else. |
| KeywordCoverage.ScoreKeywordBucket | src/app/atsEngine.js:168-172 | Found and missing keywords together count the bucket, and the ratio is in [0, 1]. |
| KeywordCoverage.BucketPartition | src/app/atsEngine.js:168-172 | A bucket splits into found and missing keywords. The two parts together count the bucket, and each keeps bucket order. A keyword is found exactly when the text contains it. The ratio is in [0, 1], and is 1 exactly when nothing is missing. |
| KeywordCoverage.GetKeywordCoverage | src/app/atsEngine.js:189-218 | The score is in [0, 35]. At most 10 missing skills and 10 missing keywords are reported. There is one result per bucket. |
| KeywordCoverage.KeywordScoreParts | src/app/atsEngine.js:194-208 | The skill part is in [0, 20] and the bucket part in [0, 15]. The score is their plain sum, so the clamp never cuts anything off. |
| KeywordCoverage.KeywordScoreMonotone | src/app/atsEngine.js:189-208 | Declaring one more non-empty skill never lowers the keyword score: no bucket keyword is lost from the longer text, and the skill ratio does not fall. |
| KeywordCoverage.MissingSkillsAlwaysEmpty | src/app/atsEngine.js:189-216 | No skill is ever reported missing. The matched skills are exactly the non-empty lower-cased skills. |
| KeywordCoverage.SkillRatioFormula | src/app/atsEngine.js:191-196 | The skill ratio is the number of non-empty skills over the number of declared skills, or 0 with no skills. |
| KeywordCoverage.MissingKeywordsAbsent | src/app/atsEngine.js:199-216 | Every reported missing keyword is absent from the collected text. |
| KeywordCoverage.MatchesGrow | src/app/atsEngine.js:168-169 | Extending the text never loses a match. |
| KeywordCoverage.AverageRatioBounds | src/app/atsEngine.js:203-205 | The average bucket ratio is in [0, 1]. |
| KeywordCoverage.BlankCoverage | src/app/atsEngine.js:189-217 | A resume with no skills and blank text scores 0. Its missing keywords are the first ten bucket keywords, in bucket order. |
| KeywordCoverage.EmptyResumeCoverage | src/app/atsEngine.js:189-217 | The all-empty resume scores 0, matches no skill, and misses "improved" … "optimized", "shipped", "launched", "deployed". |
| KeywordCoverage.FirstTenKeywords | src/app/atsEngine.js:61-67 | The first ten keywords of the bucket table are the whole impact bucket, then the first three delivery words. |
| KeywordCoverage.BucketKeywordsWordLike | src/app/atsEngine.js:61-67 | Every bucket keyword starts with a character other than white space. |
| SectionCompleteness.GetSectionCompleteness | src/app/atsEngine.js:241-276 | The six pushes of section records produce the completeness report. |
| SectionCompleteness.CompletenessScore | src/app/atsEngine.js:267-269 | The weights total 25. The score is the sum of the filled sections' weights, lies in [0, 25], and is 25 exactly when no section is missing. |
| SectionCompleteness.SectionsKeyed | src/app/atsEngine.js:241-265 | The six records carry the keys basics, summary, experience, education, skills, projects with weights 6, 5, 6, 4, 2, 2. |
| SectionCompleteness.MissingSectionsInOrder | src/app/atsEngine.js:274 | The missing keys are a sub-list of the six keys, in their order. Each key is missing exactly when its section is unfilled. |
| SectionCompleteness.FilledWeightFull | src/app/atsEngine.js:267-269 | With positive weights, the filled weight reaches the total exactly when nothing is unfilled. |
| SectionCompleteness.EmptyResumeCompleteness | src/app/atsEngine.js:241-276 | The all-empty resume scores 0 and misses all six keys, in order. |
| ExperienceQuality.GetExperienceQuality | src/app/atsEngine.js:295-336 | The step-by-step computation equals the experience-quality report. |
| ExperienceQuality.CollectIssues | src/app/atsEngine.js:325-329 | The four conditional pushes produce the issue list. |
| ExperienceQuality.ExperienceScoreParts | src/app/atsEngine.js:295-323 | The score is in [0, 20]. No experience gives score 0 and the single "add an entry" issue. Otherwise the score is the unclamped sum of its four parts. |
| ExperienceQuality.BulletVolumeFormula | src/app/atsEngine.js:319 | The bullet-volume part is `6·min(n, 8)/8`. It is at most 6, and equals 6 exactly from the eighth bullet on. |
| ExperienceQuality.ActionLedIff | src/app/atsEngine.js:307-310 | A bullet is action-led exactly when its lower-cased text is an action verb, or starts with one followed by white space. |
| ExperienceQuality.ActionVerbsAreWords | src/app/atsEngine.js:51-55 | Every action verb consists of lower-case letters only. |
| ExperienceQuality.ExperienceIssuesIff | src/app/atsEngine.js:325-329 | With experience, each of the four issues is listed exactly when its own condition holds, in fixed order. |
| ExperienceQuality.IssuesFromCounts | src/app/atsEngine.js:305-329 | The same four conditions, stated on the bullet and role counts behind the ratios. |
| ExperienceQuality.CountDatedAll | src/app/atsEngine.js:316-317 | The date coverage is full exactly when every role has a start date. |
| FormattingSignals.GetFormattingSignals | src/app/atsEngine.js:355-401 | The measured checks and their pushes produce the formatting report. |
| FormattingSignals.PushSignals | src/app/atsEngine.js:359-390 | The branches push exactly the positives and warnings selected by the four checks, in check order. |
| FormattingSignals.OneSignalPerCheck | src/app/atsEngine.js:359-390 | No check yields both a positive and a warning. The contact check always yields exactly one of the two. |
| FormattingSignals.FormattingScoreShape | src/app/atsEngine.js:393-394 | At most four messages come out. The score is 20 without warnings and otherwise `20 − 4·warnings + positives`. It is never below 4. |
| FormattingSignals.WarningsIff | src/app/atsEngine.js:359-390 | Each warning is listed exactly when its check fails on something present. |
| FormattingSignals.DatePositiveIff | src/app/atsEngine.js:366-376 | The date positive appears exactly when some start date is given and every given date is `YYYY-MM`. |
| FormattingSignals.DatesInconsistentIff | src/app/atsEngine.js:367-373 | The date warning condition holds exactly when some given start date is not `YYYY-MM`. |
| FormattingSignals.YearMonthIff | src/app/atsEngine.js:70 | The date pattern accepts exactly the `YYYY-MM` renderings of a year 0000 to 9999 and a month 01 to 12. |
| FormattingSignals.EmptyResumeSignals | src/app/atsEngine.js:355-401 | The all-empty resume gets only the contact deduction and a score of 16. |
| ExportReadiness.IsResumeReadyForExport | src/app/atsEngine.js:148 | A resume is ready for export exactly when its readiness score is 100. |
| ExportReadiness.GetResumeReadiness | src/app/atsEngine.js:96-136 | The counter and the pushes produce the readiness report. |
| ExportReadiness.ReadinessScoreValues | src/app/atsEngine.js:130 | The completeness score is one of 0, 25, 50, 75, 100. |
| ExportReadiness.ReadinessIff | src/app/atsEngine.js:96-148 | Nothing is missing exactly when all checks pass, exactly when the score is 100, exactly when the resume is ready for export. |
| ExportReadiness.MissingEntriesIff | src/app/atsEngine.js:100-128 | Each entry is listed exactly when its own condition fails; name and headline are separate entries. Entries keep their fixed order, so there are at most five. |
| ExportReadiness.EmptyResumeReadiness | src/app/atsEngine.js:96-136 | The all-empty resume misses all five entries and scores 0. |
| AtsBreakdown.GetATSBreakdown | src/app/atsEngine.js:423-460 | The total is in [0, 100]. Each category is within its weight. There are at most eight improvement areas. |
| AtsBreakdown.ScoreResume | src/app/atsEngine.js:467 | The score is in [0, 100]. |
| AtsBreakdown.ImprovementAreas | src/app/atsEngine.js:438-458 | At most eight areas; each one is a non-empty suggestion. |
| AtsBreakdown.TotalIsRoundedSum | src/app/atsEngine.js:429-447 | The unrounded sum is already in [0, 100], and the total is its rounding. |
| AtsBreakdown.CategoriesNearTotal | src/app/atsEngine.js:447-453 | The separately rounded categories add up to the total give or take two. |
| AtsBreakdown.ImprovementAreasInOrder | src/app/atsEngine.js:438-458 | The areas are the first eight of: skill call-outs, keyword call-outs, section call-outs, experience issues, formatting warnings. |
| AtsBreakdown.EmptyResumeBreakdown | src/app/atsEngine.js:423-467 | The all-empty resume totals 16 with categories (0, 0, 0, 16). Its areas are the call-outs for "improved" … "optimized", "shipped". |
| ResumeState.GetNestedValue | src/app/ResumeContext.jsx:37-39 | A path without a dot reads that key of the object; nothing is found below a value that is not an object. |
| ResumeState.SetNestedValue | src/app/ResumeContext.jsx:47-67 | The clone, walk and assignment produce the path update, or the error the walk raises. |
| ResumeState.NestedRoundTrip | src/app/ResumeContext.jsx:37-67 | Reading a path back after setting it gives the value that was set. |
| ResumeState.SetAtIff | src/app/ResumeContext.jsx:55-61 | The walk succeeds exactly when every parent key is absent or holds an object. |
| ResumeState.AbsentParentCreated | src/app/ResumeContext.jsx:57-59 | A missing intermediate key is created as an object: the object that the rest of the path writes into an empty object. |
| ResumeState.SetAtOtherKeys | src/app/ResumeContext.jsx:47-67 | Top-level keys off the path keep their values. |
| ResumeState.FreshPathNavigable | src/app/ResumeContext.jsx:55-61 | Every path can be walked from an empty object. |
| ResumeState.Stamped | src/app/ResumeContext.jsx:81-84 | The stamp sets `metadata.lastUpdated` to the clock, keeps every other field of the old metadata, and changes no other top-level key. |
| ResumeState.Reduce | src/app/ResumeContext.jsx:73-192 | The reducer fails exactly on an UPDATE_FIELD whose path cannot be walked. SET_RESUME and RESET_RESUME yield the new resume in every key but the metadata. |
| ResumeState.ChangesAreStamped | src/app/ResumeContext.jsx:73-187 | Every action that changes the state stamps the clock into the metadata. |
| ResumeState.UnknownActionKeepsState | src/app/ResumeContext.jsx:189-190 | An unknown action returns the state unchanged. |
| ResumeState.UpdateSectionReplaces | src/app/ResumeContext.jsx:75-86 | UPDATE_SECTION replaces exactly the named section. A "metadata" section key is overridden by the stamp over the old metadata. |
| ResumeState.UpdateFieldWrites | src/app/ResumeContext.jsx:88-99 | UPDATE_FIELD succeeds exactly when the path can be walked, and the path then reads back the value. |
| ResumeState.AddArrayItemAppends | src/app/ResumeContext.jsx:101-116 | ADD_ARRAY_ITEM appends at the end and leaves other keys alone. A section that is not an array leaves the state unchanged. |
| ResumeState.RemoveWithIdKeepsOthers | src/app/ResumeContext.jsx:127-129 | Removal by id is exactly the selection of the items with another id, in their original order. |
| ResumeState.RemovePositionSlices | src/app/ResumeContext.jsx:130-132 | Removal by index drops exactly that position; an out-of-range index keeps the items. |
| ResumeState.RemoveArrayItemByIndex | src/app/ResumeContext.jsx:118-145 | REMOVE_ARRAY_ITEM with an index removes that position. An id takes precedence over the index. With neither, the state is unchanged. |
| ResumeState.UpdateWithIdPointwise | src/app/ResumeContext.jsx:147-164 | UPDATE_ARRAY_ITEM keeps length and order. Exactly the items with the matching id are merged with the updates. |
| ResumeState.MergeFields | src/app/ResumeContext.jsx:158 | A merged field comes from the updates when present there, and from the item otherwise. |
| SectionTips.TipsFor | src/app/ResumeContext.jsx:212-249 | At most two tips for the summary and for the skills, at most one for education and for projects. The experience tips are the experience issues, in order, and at most one more tip. |
| SectionTips.ComputeSectionTips | src/app/ResumeContext.jsx:212-249 | The per-section pushes produce the tips for the resume and its breakdown. |
| SectionTips.SummaryTips | src/app/ResumeContext.jsx:221-226 | The length tip appears, first, exactly when the summary is under 80 characters. The keyword tip appears exactly when a keyword is missing. |
| SectionTips.SkillsTips | src/app/ResumeContext.jsx:237-242 | The skills tips are the count tip alone, exactly when fewer than 5 skills are declared. |
| SectionTips.ExperienceTips | src/app/ResumeContext.jsx:228-231 | The experience tips start with the experience issues. The role tip follows exactly when there is no experience. |
| SectionTips.EmptySectionTips | src/app/ResumeContext.jsx:233-246 | The education and project tips appear exactly when the section is empty. |
| ExportPage.GetInitials | src/pages/ExportPage.jsx:9-16 | No word gives "YN". One word gives its upper-cased first letter. Two words or more give the upper-cased first letters of the first two words. |
| ExportPage.InitialsOfName | src/pages/ExportPage.jsx:9-16 | A name of spaces only gives "YN". Otherwise the first initial is the upper-cased first non-space character. |
| ExportPage.FormatDateRange | src/pages/ExportPage.jsx:18-23 | The range is non-empty. It starts with "start - " when a start is given, and ends with the end date, or "Present" when there is none. |
| ExportPage.DateRangeCases | src/pages/ExportPage.jsx:18-23 | The four cases of a date range. |
| ExportPage.CanExport | src/pages/ExportPage.jsx:57 | Export is allowed exactly when the resume is ready and its score is at least 70: not ready, or a score below 70, closes the gate. |
| ExportPage.BlockerReasons | src/pages/ExportPage.jsx:42-55 | The pushes and the loop over missing sections produce the blocker list. |
| ExportPage.BlockerReasonsOrder | src/pages/ExportPage.jsx:42-55 | The list is never empty. The score reason is first exactly when the score is below 70. The "Add … section" reasons follow in order. The readiness reason is last exactly when the resume is not ready and its completeness is below 100. |
| ExportPage.FallbackIffCanExport | src/pages/ExportPage.jsx:42-57 | For a consistent readiness report, the list is the lone fallback exactly when export is allowed. |
| ExportPage.ResumeBlockers | src/pages/ExportPage.jsx:42-57 | On the resume's own score and readiness, the fallback shows exactly when `canExport` holds. |
| ExportPage.EmptyResumeBlocked | src/pages/ExportPage.jsx:33-57 | The all-empty resume cannot export. Its reasons are the score reason, five "Add … section" reasons, then the readiness reason. |
| ExportPage.ExportPageState.HandleExport | src/pages/ExportPage.jsx:63-73 | A closed gate only opens the upgrade modal and starts no export. An open gate starts the export. |
| TemplatesPage.MatchesCategory | src/pages/TemplatesPage.jsx:33-35 | "All" matches every template. Any other category matches exactly by case-insensitive tag equality; the extra "Popular" rule adds nothing. |
| TemplatesPage.MatchesSearch | src/pages/TemplatesPage.jsx:36-37 | The empty query matches every template. |
| TemplatesPage.FilterIsSubsequence | src/pages/TemplatesPage.jsx:32-39 | The filter keeps an order-preserving sub-list. A template is kept exactly when it matches both category and query. |
| TemplatesPage.FilteredTemplates | src/pages/TemplatesPage.jsx:32-39 | The gallery shows an order-preserving sub-list of the six templates, at most six, holding exactly the templates that match both the category and the query. |
| TemplatesPage.AllCategoryEmptyQuery | src/pages/TemplatesPage.jsx:33-37 | "All" with the empty query shows all six templates in order. |
| TemplatesPage.PopularTemplates | src/pages/TemplatesPage.jsx:5-39 | "Popular" with the empty query selects exactly templates 1 and 4. |
| TemplatesPage.CreativeIsEmpty | src/pages/TemplatesPage.jsx:5-39 | "Creative" selects nothing, whatever the query. |
| TemplatesPage.SearchIgnoresCase | src/pages/TemplatesPage.jsx:36-37 | A query and its lower-cased form select the same templates. |
| ScorePanel.GetScoreStatus | src/components/ATSScorePanel.jsx:2-7 | "Excellent" is 80 and up, "Good" 60 to 79, "Average" 40 to 59, and "Needs Work" below 40. |
| ScorePanel.StrokeColor | src/components/ATSScorePanel.jsx:36 | The ring colour is the colour of the score's status band. |
| ScorePanel.DefaultStatus | src/components/ATSScorePanel.jsx:1-9 | The default score 0 gives "Needs Work" and the red ring. |
| ScorePanel.RingMatchesBand | src/components/ATSScorePanel.jsx:36 | The ring colour changes between neighbouring scores exactly when the status band does. |
| ScorePanel.KeywordsBar | src/components/ATSScorePanel.jsx:53 | The keywords bar is the lesser of the score plus 5 and 100. |
| ScorePanel.FormattingBar | src/components/ATSScorePanel.jsx:65 | The formatting bar is the lesser of the score plus 10 and 100. |
| ScorePanel.ContentBar | src/components/ATSScorePanel.jsx:77 | The content bar is the greater of the score minus 5 and 0. |
| ScorePanel.BarsArePercentages | src/components/ATSScorePanel.jsx:53-77 | For a score in [0, 100] every bar width is in [0, 100]. |
| ScorePanel.BarOrder | src/components/ATSScorePanel.jsx:53-77 | Formatting ≥ keywords always. Keywords ≥ content exactly when the score is in [−5, 105]. |
| ScorePanel.BarsMonotone | src/components/ATSScorePanel.jsx:53-77 | A higher score never shortens a bar. |
| EditorPage.HandleSectionChange | src/pages/EditorPage.jsx:16-21 | Only the named key changes, to the new text; the keys are the old keys and the named one. |
| EditorPage.CompletedKeys | src/pages/EditorPage.jsx:50 | A section counts as completed exactly when its text is longer than 20 characters. |
| EditorPage.CompletionPercentage | src/pages/EditorPage.jsx:50-52 | The completion percentage is in [0, 100]. |
| EditorPage.PercentageSteps | src/pages/EditorPage.jsx:50-52 | With the four sections, the percentage is 25 per completed section: 0, 25, 50, 75 or 100. |
| EditorPage.PercentageExtremes | src/pages/EditorPage.jsx:50-52 | 100% exactly when all sections are completed; 0% exactly when none is. |
| EditorPage.InitialIsZero | src/pages/EditorPage.jsx:5-52 | The initial all-empty sections give 0%. |
| EditorPage.EditMovesByOneStep | src/pages/EditorPage.jsx:16-52 | Editing a section moves the percentage by 25 exactly when the edit changes whether that section is completed, and not at all otherwise. |

## Left out

- React rendering, hooks (`useState`, `useMemo`, `useCallback`, `useReducer`), the context provider and routing are not modelled. They are UI framework glue.
- The clock and identifiers are not modelled. The reducer takes the timestamp `now` and the default resume as parameters; `generateId` is not modelled.
- `setTimeout` and `alert` in `handleExport`, and closing the upgrade modal, are not modelled. They are side effects; only the gate that decides whether an export starts is modelled.
- The ring's `strokeDasharray` is not modelled. It is floating-point display arithmetic.
- Unicode is not modelled. Casing is ASCII-only; `\s` is a fixed set of characters; `part[0]` takes a character, not a UTF-16 code unit.
- JavaScript coercions of absent resume fields are not modelled: for example, an absent `role` is interpolated as the text "undefined". The resume datatype has every field present.
- ResumeState.SetNestedValue: a path through an array is not modelled. JavaScript would add a property to the array; the model reports the TypeError it reports for stepping into `null` or a primitive.
- ResumeState.GetNestedValue: reading through a string or an array returns nothing. JavaScript would return a character or an element.
- ResumeState.Stamped: spreading metadata that is a string or an array copies nothing. JavaScript copies its indices.
- ResumeState.SetNestedValue: keys inherited from `Object.prototype`, such as "constructor" or "__proto__", are treated as absent. JavaScript finds them through the prototype chain.
- ResumeState.GetNestedValue: keys inherited from `Object.prototype`, such as "constructor" or "__proto__", read as absent. JavaScript returns the inherited member.
- ResumeState.RemoveWithIdKeepsOthers: a `null` item counts as an item without an id. JavaScript throws on `null.id`.
- ResumeState.RemoveWithIdKeepsOthers: ids are compared by value. JavaScript's `!==` compares object ids by reference.
- ResumeState.UpdateWithIdPointwise: a `null` item counts as an item without an id. JavaScript throws on `null.id`.
- ResumeState.UpdateWithIdPointwise: ids are compared by value. JavaScript's `===` compares object ids by reference.
- ResumeState.UpdateWithIdPointwise: merging a string or array item keeps only the updates. JavaScript's spread copies its indices as keys.
- KeywordCoverage.KeywordScoreMonotone: covers a non-empty skill only. An empty skill counts in the number of skills but never matches, so it lowers the skill ratio from m/n to m/(n+1).
- The export formats list, the template preview images, template selection and navigation are not modelled. They are presentation data.
- EditorPage.CompletedKeys: a state without keys is not modelled; JavaScript would compute `NaN`. The editor always holds its four initial keys.
