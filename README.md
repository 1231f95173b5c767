# Employee directory: a verified model of its logic

The employee directory is a small web application over an Airtable base. Its parts:

- A serverless function takes an uploaded LinkedIn PDF. It cuts the "Experience" section out of the PDF's text and asks OpenAI for a JSON job list. It then saves the jobs as 'Work Experience' records linked to the employee (`api/process-linkedin-pdf.js`).
- A browser module uses the same kind of model call on OCR text and reads the jobs out of the model's reply. The reply may be wrapped in a code fence (`src/linkedin-extractor.js`).
- The directory page loads every employee page by page, sorts by name, and filters by a quick-search term and by advanced filters (`src/search.js`).
- The manager portal lists employees and edits them (`src/manager.js`).
- The profile page builds Airtable formulas for an employee's linked records and renders skills, dates and years (`src/profile.ts`).
- A browser extension prints a LinkedIn profile as a PDF under the title `<code>_<name>` (`page-printer/popup.js`).

The Dafny project models these in one module per concern:

- `Text`: the JavaScript string operations the scripts rely on:
  - `trim` with the ECMAScript white-space set;
  - `toLowerCase`, `indexOf`, `startsWith`/`endsWith` and `includes`;
  - `substring` with its clamping and swapping of bounds;
  - `join`, `split` and decimal rendering.
- `Ordering`: the order and the stable sort that `localeCompare` and `sort()` give, and the first-occurrence de-duplication that a `Set` spread gives.
- `Json`: JSON values, truthiness and property reads.
- `Dictionary`: the `m[id] = value` fill loops.
- `Paging`: the offset-driven do-while page loop.
- `Records`: the employee record.
- `ExperienceText`: the section extraction.
- `LinkedinHandler`: the serverless handler.
- `LinkedinExtractor`: the browser-side extraction.
- `Directory`: the search page. Its module state is the class `DirectoryPage`.
- `Manager`: the manager portal. Its module state is the class `ManagerPortal`.
- `Profile`: the profile page.
- `Popup`: the print extension.

Every call to a vendor or to the browser becomes an input:
- PDF.js text content is given as pages of item strings. A PDF.js failure is a message.
- The OpenAI reply and the Airtable reply are values of a reply datatype.
- `JSON.parse` is a function-typed parameter.
- So are the `endOfSection` regular expression, `encodeURIComponent`, `new Date(...).toISOString()` and `getFullYear()`.
- The current year is a number.

Where the design description and the code differ, the model follows the code:
- Pages are joined by the single `'\n'` that ends each page's text (`api/process-linkedin-pdf.js:49`), not by a blank line.
- There are three stop keywords (`about`, `skills`, `education`; line 69), not a longer list.
- The Airtable save sends all records in one POST (lines 179-189). There are no batches of 10, no per-batch results and no stop at the first failed batch.
- The browser extractor accepts only a top-level JSON array (`src/linkedin-extractor.js:95`). It has no `job_experiences` wrapper. The wrapper is read only by the serverless handler (`api/process-linkedin-pdf.js:236`).
- `loadAllClients` reads a single page of at most 100 clients (`src/search.js:33`), not every client.
- With a heading present, the 12000-character cap bounds the section only when no stop index is found (lines 89-93). A distant keyword stop can give a longer section.

## Model

| member | source | states |
|---|---|---|
| Text.Trim | api/process-linkedin-pdf.js:96 | `trim` returns one contiguous piece of its input. The piece is empty exactly when the input is all white space; otherwise it starts and ends with non-space. |
| Text.TrimSurrounded | api/process-linkedin-pdf.js:96 | Trimming text that is padded only with white space, and that itself has no white space at its ends, gives that text back. |
| Text.TrimIdempotent | src/profile.ts:182 | Trimming twice is trimming once. |
| Text.Lower | api/process-linkedin-pdf.js:56 | The definition of ASCII `toLowerCase`; Text.LowerConcat and Text.LowerIdempotent state its properties. |
| Text.LowerConcat | api/process-linkedin-pdf.js:66 | Lower-casing distributes over concatenation, so lowering the tail is lowering each part of it. |
| Text.LowerIdempotent | src/search.js:42 | Lower-casing twice is lower-casing once, and the result has no upper-case letter, so an already lowered term is not changed again. |
| Text.IndexOfFirst | api/process-linkedin-pdf.js:56-57 | `indexOf` is -1 exactly when the pattern occurs nowhere. Otherwise the pattern occurs there and at no earlier index. |
| Text.JsSubstring | src/linkedin-extractor.js:90 | `substring` within bounds is the slice. With the bounds reversed it is the slice between them. With bounds covering the string it is the whole string. It is never longer than its input. |
| Text.NatToStringRoundTrip | src/linkedin-extractor.js:76 | The decimal rendering of a status code or a year reads back as the same number. |
| Text.SplitJoin | src/profile.ts:106 | Splitting a comma-joined list of comma-free pieces gives the pieces back. |
| Ordering.LexLeTotal | src/search.js:57 | Any two names are comparable under the code-unit order. |
| Ordering.LexLeRefl | src/search.js:57 | Every name is ordered against itself. |
| Ordering.LexLeTrans | src/search.js:57 | The order is transitive. |
| Ordering.LexLeAntisym | src/search.js:57 | Two names each not above the other are equal. |
| Ordering.InsertBy | src/search.js:57 | Inserting into a sorted list adds exactly that element and keeps the list sorted. |
| Ordering.SortBy | src/search.js:86 | The sort returns a permutation of its input, sorted by the key. Its stability is Ordering.SortByStable. |
| Ordering.InsertWithKey | src/search.js:57 | Inserting puts the new element ahead of every element with its key, and keeps the order of the elements of every key. |
| Ordering.SortByStable | src/manager.js:29 | The sort is stable: for every key, the elements with that key appear in the sorted list in their input order. |
| Ordering.Dedup | src/search.js:102 | The `Set` spread holds each value once, and exactly the values of the input. |
| Ordering.DistinctPermutation | src/search.js:102 | Sorting a list without duplicates keeps it without duplicates. |
| Ordering.SortedDistinctStrict | src/search.js:102 | A sorted list without duplicates is strictly increasing. |
| Records.SortByName | src/manager.js:29 | The list sorted by `f['Employee Name'] \|\| ''` is a permutation of the loaded list, ordered by name. |
| Dictionary.Fill | src/search.js:34-36 | The fill loop computes exactly the assignments in order. |
| Dictionary.LastAssignment | src/search.js:35 | Locates the last assignment to a key: it assigns that key, and no later assignment does. |
| Dictionary.AssignedLookup | src/search.js:35 | After the loop a key maps to the value of its last assignment. A key never assigned keeps its earlier presence and value. |
| Dictionary.Assigned | src/search.js:34-36 | The definition of the dictionary after the assignments; Dictionary.AssignedLookup, Dictionary.AssignedKeys and Dictionary.AssignedLast state what it holds. |
| Dictionary.AssignedKeys | src/search.js:35 | The keys after the loop are exactly the earlier keys and every assigned key. |
| Dictionary.AssignedLast | src/profile.ts:107 | A key reads the value written by its last assignment. |
| Dictionary.AssignedUntouched | src/search.js:35 | A key that no assignment writes keeps its presence and its value. |
| Paging.LastPage | src/search.js:80-85 | The loop stops at the first page without a truthy offset. Every earlier page had one. |
| Paging.Concat | src/search.js:83 | The definition of the records gathered from a run of pages; Paging.ConcatAppend and Paging.FetchAll state it. |
| Paging.ConcatAppend | src/search.js:83 | Concatenating the pages' records distributes over splitting the page list. |
| Paging.FetchAll | src/search.js:79-85 | The do-while loop collects the records of every page up to the first without an offset. The first request carries no offset; each later request carries the offset of the page before it. |
| ExperienceText.DocumentTextAppend | api/process-linkedin-pdf.js:43-50 | The text of a split page list is the texts of the parts, one after the other. |
| ExperienceText.DocumentText | api/process-linkedin-pdf.js:43-50 | The definition of the document text; ExperienceText.DocumentTextAppend, ExperienceText.NewlinePerPage and ExperienceText.JoinPages state it. |
| ExperienceText.NewlinePerPage | api/process-linkedin-pdf.js:49 | With no newline inside the items, the document holds exactly one newline per page. |
| ExperienceText.JoinPages | api/process-linkedin-pdf.js:41-50 | The page loop builds exactly the document text: each page's items joined by spaces, then a newline. |
| ExperienceText.HeadingStartRules | api/process-linkedin-pdf.js:56-58 | "more experience" wins over "experience". There is no heading exactly when "experience" occurs nowhere. A heading lies inside the text and begins with one of the two words. |
| ExperienceText.HeadingStart | api/process-linkedin-pdf.js:56-58 | The definition of the heading index; ExperienceText.HeadingStartRules states it. |
| ExperienceText.EarliestOf | api/process-linkedin-pdf.js:72-77 | The stop index is -1 or lies within the text. |
| ExperienceText.EarliestOfMinimum | api/process-linkedin-pdf.js:72-77 | The stop index is -1 exactly when no keyword occurs. Otherwise it is some keyword's first occurrence and is not above any keyword's first occurrence. |
| ExperienceText.EarliestStop | api/process-linkedin-pdf.js:69-77 | The keyword loop computes the earliest first occurrence of "about", "skills" and "education". |
| ExperienceText.EarliestInside | api/process-linkedin-pdf.js:73 | A keyword's first occurrence lies strictly inside the text. |
| ExperienceText.StopIndex | api/process-linkedin-pdf.js:69-86 | The definition of the stop index; ExperienceText.KeywordStopSection, ExperienceText.PatternOnlyWithoutKeyword, ExperienceText.PatternStopPastOffset and ExperienceText.StopIndexPositive state it. |
| ExperienceText.ExperienceSection | api/process-linkedin-pdf.js:55-96 | The definition of the extracted section; ExperienceText.ExtractExperienceText, ExperienceText.SectionCut, ExperienceText.SectionWithin and ExperienceText.SectionNonEmpty state it. |
| ExperienceText.ExtractExperienceText | api/process-linkedin-pdf.js:41-96 | The whole extraction, from pages to trimmed text, computes the section of the document text. |
| ExperienceText.SectionCut | api/process-linkedin-pdf.js:65-96 | With a heading, the section is the trimmed cut of the text from the heading on. |
| ExperienceText.NoHeadingKeepsPrefix | api/process-linkedin-pdf.js:60-63 | Without a heading, the result is the first 10000 characters of the document, untrimmed. |
| ExperienceText.KeywordStopSection | api/process-linkedin-pdf.js:89-90 | With a heading and a keyword stop, the section is the trimmed text from the heading up to the earliest keyword. |
| ExperienceText.PatternOnlyWithoutKeyword | api/process-linkedin-pdf.js:80 | When a keyword is found, the end-of-section pattern plays no part. |
| ExperienceText.PatternStopPastOffset | api/process-linkedin-pdf.js:82-84 | A stop found by the pattern alone lies at least 500 characters past the heading. It exists only when the pattern matched the text after those 500. |
| ExperienceText.CapWithoutStop | api/process-linkedin-pdf.js:91-92 | Without any stop, the section is the trimmed first 12000 characters from the heading. It is at most 12000 long. |
| ExperienceText.SectionWithin | api/process-linkedin-pdf.js:55-96 | The section is always one contiguous piece of the document text. With a heading it starts at or after the heading. |
| ExperienceText.KeywordsNotAtHeading | api/process-linkedin-pdf.js:72-77 | No stop keyword can match at the heading itself. |
| ExperienceText.StopIndexPositive | api/process-linkedin-pdf.js:72-86 | The stop index is -1 or positive, never 0. |
| ExperienceText.CutNonEmpty | api/process-linkedin-pdf.js:88-96 | A cut of a tail that starts with a non-space character trims to a non-empty string. |
| ExperienceText.HeadingSectionNonEmpty | api/process-linkedin-pdf.js:65-96 | With a heading, the section is never empty. |
| ExperienceText.SectionNonEmpty | api/process-linkedin-pdf.js:55-96 | A non-empty document always gives a non-empty section. |
| Json.Property | api/process-linkedin-pdf.js:165-169 | A property read gives a value exactly when the job is an object with that key, and the value it gives is that field. |
| LinkedinHandler.CallModel | api/process-linkedin-pdf.js:103-150 | Blank text fails with "No text provided to OpenAI for processing." before any call. Otherwise: a failed request fails with the wrapped details; an empty content fails with "OpenAI returned an empty response content." wrapped; a parse failure fails with the wrapped syntax message; a parse success is the result. A result is always the parse of a non-empty reply content. |
| LinkedinHandler.BlankTextIgnoresReply | api/process-linkedin-pdf.js:104-106 | For blank text the outcome fails and does not depend on the reply or the parser. |
| LinkedinHandler.MapRecords | api/process-linkedin-pdf.js:163-173 | Mapping throws exactly when some job is `null`. Otherwise there is one record per job, linked only to this employee, carrying the job's five fields. |
| LinkedinHandler.ToRecord | api/process-linkedin-pdf.js:163-172 | The definition of one POSTed record; LinkedinHandler.MapRecords and LinkedinHandler.SavePostsEveryJob state its fields. |
| LinkedinHandler.SaveExperience | api/process-linkedin-pdf.js:153-190 | The save is skipped with the source's messages without credentials or without an id. A POST is made only for a non-empty array, with one record per job, and its status is reported. A success without a request means an empty list. |
| LinkedinHandler.EmptyListSavesNothing | api/process-linkedin-pdf.js:175-177 | An empty job list succeeds with "No job experiences to save." and no request. |
| LinkedinHandler.SavePostsEveryJob | api/process-linkedin-pdf.js:163-189 | A non-empty list of non-null jobs posts exactly the mapped records and reports the reply's status. |
| LinkedinHandler.JobsToSave | api/process-linkedin-pdf.js:236 | A save is attempted only for a truthy `job_experiences` property with a positive length. |
| LinkedinHandler.ReadExperience | api/process-linkedin-pdf.js:225-226 | A readable PDF yields the extracted section; an unreadable or unparsable one yields a failure. |
| LinkedinHandler.Sufficient | api/process-linkedin-pdf.js:228 | The definition of the length test; LinkedinHandler.ShortTextNotSent and LinkedinHandler.Process state its effect. |
| LinkedinHandler.Process | api/process-linkedin-pdf.js:224-258 | After an upload the status is 200, 400 or 500, and the upload is deleted whenever it has a path. Only text of at least 50 trimmed characters reaches the model. A POST is made only with an id and a non-empty list. Every 200 carries the extracted JSON. A 200 without a save reports no success. |
| LinkedinHandler.Answer | api/process-linkedin-pdf.js:233-250 | After the model reply: without a job list, 200 with "Save to Airtable not attempted."; with jobs but no id, 200 with "Employee ID not provided for Airtable linking."; with jobs and an id, 500 exactly when the save throws, and otherwise 200 with the save's own status and exactly the records it POSTed. |
| LinkedinHandler.Handler | api/process-linkedin-pdf.js:198-260 | A non-POST gets 405, and a missing configuration gets 500. The upload is deleted exactly when a POST passed configuration, form parsing and the upload check, and the file has a path. |
| LinkedinHandler.SaveOnlyWithJobsAndId | api/process-linkedin-pdf.js:235-246 | Every 200 either posted for a non-empty job list with an id, or reports an unsuccessful save status. |
| LinkedinHandler.ShortTextNotSent | api/process-linkedin-pdf.js:228-231 | Empty or short text answers 400, and the model is never asked. |
| LinkedinHandler.MissingIdStillAnswers | api/process-linkedin-pdf.js:237-239 | Jobs without an employee id still answer 200 with the JSON, with the "Employee ID not provided for Airtable linking." status and no save. |
| LinkedinExtractor.JsonFenceInside | src/linkedin-extractor.js:89-90 | Under a "```json" pair the fences cannot overlap, and the parsed text is exactly what lies between them, trimmed. |
| LinkedinExtractor.BareFenceInside | src/linkedin-extractor.js:91-92 | The same for a bare "```" pair of at least six characters. |
| LinkedinExtractor.ShortFenceSwaps | src/linkedin-extractor.js:91-92 | A bare pair shorter than six characters overlaps, and `substring` swaps its bounds. |
| LinkedinExtractor.TripleBacktickStays | src/linkedin-extractor.js:88-92 | Content of just "```" is parsed unchanged. |
| LinkedinExtractor.UnfencedOnlyTrimmed | src/linkedin-extractor.js:88 | Content without a fence pair is parsed after trimming alone. |
| LinkedinExtractor.StripFences | src/linkedin-extractor.js:89-93 | The definition of the fence removal; LinkedinExtractor.JsonFenceInside, LinkedinExtractor.BareFenceInside, LinkedinExtractor.ShortFenceSwaps and LinkedinExtractor.TripleBacktickStays state it. |
| LinkedinExtractor.ToParse | src/linkedin-extractor.js:88-93 | The definition of the text handed to `JSON.parse`; LinkedinExtractor.UnfencedOnlyTrimmed, LinkedinExtractor.JsonBlockRoundTrip and LinkedinExtractor.BareBlockRoundTrip state it. |
| LinkedinExtractor.JsonBlockRoundTrip | src/linkedin-extractor.js:88-90 | JSON text inside a "```json" block is recovered exactly. |
| LinkedinExtractor.BareBlockRoundTrip | src/linkedin-extractor.js:91-92 | JSON text inside a bare "```" block is recovered exactly. |
| LinkedinExtractor.Classify | src/linkedin-extractor.js:94-104 | The parsed array is the job list; any other value or a parse failure gives none. |
| LinkedinExtractor.ExtractWorkExperience | src/linkedin-extractor.js:32-109 | Without a key there are no jobs, plus the OCR text or the OCR error text. With a key, an OCR failure propagates and a non-ok reply fails with the status message. An ok reply always succeeds with the OCR text. |
| LinkedinExtractor.WorkExperienceIsParsedArray | src/linkedin-extractor.js:86-108 | The jobs are the array the fenced content parses to. Anything else gives none. |
| LinkedinExtractor.ErrorBodyIgnored | src/linkedin-extractor.js:63-76 | The error body of a non-ok reply does not change the failure message. |
| Directory.FilterBy | src/search.js:45-56 | The filter keeps exactly the records the predicate accepts, each as many times as it occurs in the input. Its order is Directory.FilterByAppend. |
| Directory.FilterByAppend | src/search.js:45-56 | Filtering keeps the input order: the kept records of two lists are those of the first followed by those of the second. |
| Directory.FilterByOne | src/search.js:45-56 | One record is kept exactly when the predicate accepts it. |
| Directory.Keep | src/search.js:47-55 | The definition of the filter callback; Directory.Matching, Directory.RenderGrid, Directory.NoFiltersShowAll and Directory.UnmappedNeverMatches state it. |
| Directory.Matching | src/search.js:45-56 | A record is kept exactly when it is loaded and passes every test of the filter callback, as many times as it was loaded. |
| Directory.RenderGrid | src/search.js:40-62 | The grid shows each loaded record that passes the name, skill, client, industry and job-title tests, as many times as it was loaded, and nothing else. It is sorted by name. "No results" shows exactly when nothing passes. |
| Directory.NoFiltersShowAll | src/search.js:42-55 | With an empty term and no filters every record is shown. |
| Directory.UnmappedNeverMatches | src/search.js:53 | A client id without an industry never satisfies an industry filter. |
| Directory.TruthyIndustries | src/search.js:102 | The mapped list holds exactly the clients' non-empty industries. |
| Directory.IndustryOptions | src/search.js:102 | The definition of the industry options; Directory.IndustryOptionsSpec states it. |
| Directory.IndustryOptionsSpec | src/search.js:102 | The industry options are the clients' non-empty industries, each once, in strictly increasing order. |
| Directory.DirectoryPage.constructor | src/search.js:16-21 | The page starts with no employees, no filters and an empty client dictionary. |
| Directory.DirectoryPage.IndustryPairs | src/search.js:34-36 | The assignments of the client page, one per client in page order; their effect on the dictionary is Directory.DirectoryPage.ClientIndustryLookup. |
| Directory.DirectoryPage.ClientIndustryLookup | src/search.js:34-36 | After loading, an id on the page reads the 'Industry' of its last record there, an id not on the page reads what it read before, and the keys are the earlier ones plus the page's ids. |
| Directory.DirectoryPage.LoadAllClients | src/search.js:32-37 | The dictionary becomes the assignments of the client page; nothing else changes. |
| Directory.DirectoryPage.LoadDirectory | src/search.js:76-87 | The clients are loaded, the employees become every page's records sorted by name, and the grid is rendered for the new state. |
| Directory.DirectoryPage.ApplyAdvanced | src/search.js:130-137 | The job-title filter becomes the trimmed lower-cased input, or nothing when the input is missing. The checked boxes become the filters, and the grid is re-rendered. |
| Manager.EditPayload | src/manager.js:94-101 | The payload has exactly the six fields, each holding the form's value. |
| Manager.FirstIndex | src/manager.js:118 | `findIndex` gives the first entry with the id, or -1 when there is none. |
| Manager.ReplaceFirst | src/manager.js:118-119 | The definition of the list after the refetch; Manager.ReplaceFirstSpec states it. |
| Manager.ReplaceFirstSpec | src/manager.js:118-119 | Only the first entry with the id is replaced. The length and every other entry stay, and without a match nothing changes. |
| Manager.ManagerPortal.constructor | src/manager.js:15-17 | The portal starts with no employees, skills or traits. |
| Manager.ManagerPortal.LoadData | src/manager.js:20-36 | The employees become every page's records sorted by name; skills and traits are their pages. |
| Manager.ManagerPortal.RenderGrid | src/manager.js:39-58 | The empty message shows exactly for an empty list. Otherwise there is one card per employee, in order, with name, title and id. |
| Manager.ManagerPortal.EditSave | src/manager.js:102-120 | A failed or rejected PATCH alerts "Failed to save changes: " with the message, and nothing changes. A success replaces the first entry with the id. |
| Profile.Clauses | src/profile.ts:126-128 | The clause list; Profile.FormulaRoundTrip states its meaning: the formula made from it reads back as the ids, in order. |
| Profile.RecordIdFormula | src/profile.ts:106 | The definition of the `OR(...)` formula; Profile.FormulaRoundTrip and Profile.SkillsQueryListsIds state it. |
| Profile.FormulaRoundTrip | src/profile.ts:126-128 | The `OR(...)` formula lists exactly the ids, in order: reading it back gives them again. |
| Profile.LinkedQuery | src/profile.ts:122 | A linked-records query is made exactly for a present, non-empty list, and it is that list's formula. |
| Profile.SkillIds | src/profile.ts:103 | The skill ids are exactly the truthy first 'Skill' links of the level records. Their order and count are Profile.SkillIdsAppend and Profile.SkillIdsOne. |
| Profile.SkillIdsOne | src/profile.ts:103 | One record gives its first 'Skill' link when that is truthy, and nothing otherwise. |
| Profile.SkillIdsAppend | src/profile.ts:103 | The ids of two runs of records are those of the first run followed by those of the second, so the links keep the records' order. |
| Profile.SkillsQuery | src/profile.ts:105-106 | The skills query is made exactly when some level record links a skill. |
| Profile.SkillsQueryListsIds | src/profile.ts:105-106 | The skills query asks for exactly the skill ids, in the records' order. |
| Profile.SkillPairs | src/profile.ts:107 | The assignments of the skills answer, one per record in order; their effect on the dictionary is Profile.SkillsMapLookup. |
| Profile.SkillsMapLookup | src/profile.ts:107 | The dictionary holds exactly the returned skill ids, and an id maps to the 'Skill Name' of its last record. |
| Profile.BadgeOf | src/profile.ts:110-113 | The level is the record's level or "". The name is "Unknown" exactly when the lookup misses, is empty or is "Unknown"; otherwise it is the name the dictionary holds for the first 'Skill' link. A record without a skill link looks up the key "undefined". |
| Profile.SkillBadges | src/profile.ts:102-114 | One badge per level record, in order, against the dictionary that is filled only when there are skill ids. |
| Profile.Prefix | src/profile.ts:137 | `slice(0, n)` is the first n characters, or the whole string when it is shorter. |
| Profile.DateLine | src/profile.ts:137 | The definition of the date line; Profile.DateLineEnd states it. |
| Profile.DateLineEnd | src/profile.ts:137 | The line starts with the start's first seven characters, or with "undefined" for an absent start, then " – ". It ends in " – Present" without an end date, and otherwise in " – " and the end's first seven characters. |
| Profile.ClientYears | src/profile.ts:156-158 | The definition of the years cell; Profile.GivenYearsWin, Profile.OpenEndedCountsToNow and Profile.NoStartNoYears state it. |
| Profile.GivenYearsWin | src/profile.ts:158 | A truthy 'Years Experience' is shown as it is, whatever the dates. |
| Profile.OpenEndedCountsToNow | src/profile.ts:156-158 | Otherwise a start without an end counts to the current year, and a start with an end counts between their years. |
| Profile.NoStartNoYears | src/profile.ts:158 | Without a truthy value or a start date the cell is empty. |
| Profile.LastYear | src/profile.ts:159 | The last-year cell is the end date's first four characters, or the current year written in decimal. |
| Profile.NewExperienceRecord | src/profile.ts:72-79 | Each date is set exactly when its input is non-empty, as the ISO string. The record is linked to this employee only. |
| Profile.QuickSearchUrl | src/profile.ts:182-184 | A blank term goes to "search.html"; otherwise the trimmed, encoded term goes into `?q=`. |
| Profile.QuickSearchIgnoresPadding | src/profile.ts:182 | Surrounding white space does not change the target. |
| Popup.RemoveWhitespace | page-printer/popup.js:16 | The sanitized name holds no white space, and it holds exactly the input's non-space characters. |
| Popup.RemoveWhitespaceConcat | page-printer/popup.js:16 | Sanitizing distributes over concatenation, so the non-space characters keep their order. |
| Popup.NoWhitespaceUnchanged | page-printer/popup.js:16 | A name without white space is left unchanged. |
| Popup.RemoveWhitespaceIdempotent | page-printer/popup.js:16 | Sanitizing twice is sanitizing once. |
| Popup.ProfileNameOrDefault | page-printer/popup.js:14 | A missing or empty name becomes "Unknown"; any other name is kept. |
| Popup.PrintTitle | page-printer/popup.js:16-18 | The definition of the title; Popup.TitleParts and Popup.MissingNameTitle state it. |
| Popup.TitleParts | page-printer/popup.js:18 | The title is the code, "_", then the sanitized name. The part after "_" has no white space and exactly the name's non-space characters. |
| Popup.MissingNameTitle | page-printer/popup.js:14-18 | Without a reported name the title is `<code>_Unknown`. |
| Popup.SavePdf | page-printer/popup.js:1-31 | An empty code gives only the "Please select an employee before saving PDF." alert. Otherwise the effects are four, ending with the title being set and then the print. |
| Popup.EmptyCodeSendsNothing | page-printer/popup.js:4-7 | With an empty code no message goes to the tab and nothing is printed. |
| Popup.PrintFollowsTitle | page-printer/popup.js:21-26 | Every print comes after the title for this click has been set. |

## Left out

- Vendor calls are inputs: PDF.js, Google Cloud Vision OCR (`api/ocr-pdf.js`), the OpenAI and Airtable HTTP calls, `JSON.parse` and the `endOfSection` regular expression. The model takes what they return; their internals are not part of this model.
- `fetch` and `response.json()` failures in the page scripts are not modelled. The pages' `try`/`catch` around them only logs or shows a fixed error message.
- A failed save in the handler is modelled as a `TypeError` from mapping a non-array or a `null` job. A failing `fetch` or `response.json()` inside the save is not modelled.
- LinkedinHandler.SaveExperience: the reply's `data` (the Airtable response body) is not part of the modelled save status; only `success` and `status` are.
- LinkedinHandler.Answer: the 200 body `{...experienceJson, airtableSaveStatus}` is modelled as the JSON and the status side by side. The spread's merging of keys is not modelled.
- LinkedinHandler.HasLength: an object's `length` property counts as positive only when it is a positive number or `true`. Strings and other values that JavaScript would coerce are treated as no length.
- Thrown.TypeError: the engine's wording of the message is not modelled.
- `toLowerCase` is modelled on ASCII letters only. `localeCompare` is modelled as code-unit order, which the locale's collation may not follow. Strings are sequences of characters, not UTF-16 code units.
- `Truthy` treats every number except 0 as truthy. `NaN` cannot come from `JSON.parse`.
- All DOM rendering is left out: HTML templates, modals and event wiring. In particular these are not part of this model:
  - the profile header and its `emp-meta` line;
  - the traits, skills and clients edit modals of `src/profile.ts`;
  - the advanced-search modal markup of `src/search.js`.
- `src/search.js:117`: the advanced-search modal markup holds a `\$1` leftover where the checkbox lists should go, so no checkboxes are rendered. The model takes the checked lists as inputs anyway.
- Async scheduling is flattened into one sequential run per event.
- `page-printer/content.js` (the title injection), the root `profile.ts` and `vite.config.js` are not part of this model.
- Popup.SavePdf: `chrome.tabs.query` is assumed to find an active tab. The second alert's placeholder file name is kept literally.
- Paging.FetchAll requires that some page has no offset; the source's do-while loop would not end otherwise.
