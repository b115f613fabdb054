# Résumé evaluation rules, modelled in Dafny

This project models the decision logic of the résumé analyzer's
`analyze_resume` function and its helper `course_recommender` (both in
`api.py`). Given what the structured-field extractor returned for an uploaded
résumé (or how it failed), the résumé's text and the course and video
catalog, the analysis:

- stops with an error when the parser raised or returned nothing;
- levels the candidate from the page count ("Fresher", "Intermediate",
  "Experienced" or the empty string);
- lower-cases the skills and predicts one field by first match over five
  keyword lists, tried in the fixed order Data Science, Web, Android, iOS,
  UI-UX (`Other` when none matches), with that field's recommended skills;
- shuffles the field's course list in place and recommends its first five
  entries;
- scans the lower-cased text for five sections (objective, declaration,
  hobbies, achievements, projects), 20 points per section found;
- picks one résumé-tips video and one interview-tips video, or none from an
  empty pool.

Modules, one per component:

| file | module | what it holds |
|---|---|---|
| `common.dfy` | `Common` | `Option`, `Result`, `Min` |
| `text.dfy` | `Text` | lower-casing and substring containment |
| `leveler.dfy` | `Leveler` | page count to seniority tier |
| `field_classifier.dfy` | `FieldClassifier` | keyword tables, first-match classification |
| `section_scanner.dfy` | `SectionScanner` | the section table and the scoring loop |
| `recommendations.dfy` | `Recommendations` | in-place shuffle, course records, video choice |
| `analyzer.dfy` | `Analyzer` | the catalog (a class over arrays), the early exits, the report |

The pure if/elif chains (level, field) are functions. The section scan is a
method with a loop that updates the score and the breakdown map. The course
lists are arrays that `RecommendCourses` shuffles in place. `random.shuffle`
is written as Fisher–Yates whose random index is an arbitrary choice
(`j :| 0 <= j <= i`), so the proofs hold for every order the shuffle can
produce. `random.choice` is an arbitrary index into the pool in the same way.

Two behaviours of the code are kept as written:

- An exception from the text extractor (`pdf_reader`) is not caught inside
  `analyze_resume`. It leaves the function (`Analysis.Raised`) rather than
  becoming an `{"error": ...}` answer.
- The course recommender reorders the shared, module-level course list in
  place. It does not work on a copy. What it keeps is the list's length and
  its multiset of entries.

## Model

| member | source | states |
|---|---|---|
| `Leveler.LabelEmptyIffNoPages` | api.py:90-97 | page count 1 gives "Fresher", 2 gives "Intermediate", 3 or more gives "Experienced", and the label is "" exactly when the count is below 1 |
| `Leveler.MissingPageCountIsUnknown` | api.py:91 | a record without `no_of_pages` counts as 0 pages, so the level is the empty label |
| `Leveler.LevelRankIsClampedPages` | api.py:92-97 | the tier's rank equals the page count clamped to 0..3 (0 for non-positive counts) |
| `Leveler.LevelMonotone` | api.py:92-97 | more pages never give a lower tier |
| `Text.Lower` | api.py:87 | lower-casing keeps the length, maps each character through the letter mapping, and leaves no upper-case letter |
| `Text.LowerIdempotent` | api.py:87 | lower-casing twice is lower-casing once |
| `Text.LowerOfLowerCase` | api.py:100 | a string with no upper-case letter is unchanged by lower-casing |
| `Text.LowerCapitalised` | api.py:87 | a capitalised word whose other letters are small lowers to the same word with a small first letter |
| `Text.LowerKeepsOccurrence` | api.py:87-148 | a keyword found in the original text is found, lower-cased, in the lower-cased text that the section scan searches |
| `Text.OccursInContext` | api.py:148 | section matching is plain substring search: a keyword still occurs when text is put around it, for example inside a longer word |
| `Analyzer.FieldOfOtherIff` | api.py:100-133 | a parsed record's predicted field is `Other` exactly when none of its extracted skills (none when the key is missing), lower-cased, equals a keyword of any field |
| `FieldClassifier.FirstMatchIsEarliest` | api.py:113-133 | first-match over an ordered field list gives `Other` iff no field's keywords meet the skills, and otherwise a field that matches while every earlier field does not |
| `FieldClassifier.ClassifyIsFirstMatch` | api.py:113-133 | the if/elif chain equals first-match over the order Data Science, Web, Android, iOS, UI-UX |
| `FieldClassifier.ClassifyPicksFirstMatching` | api.py:113-133 | a predicted field matches the skills, and every field before it in precedence order does not |
| `FieldClassifier.AllKeywords` | api.py:102-107 | every keyword of every field belongs to the combined keyword list |
| `FieldClassifier.OtherIffNoKeyword` | api.py:109-133 | the field is `Other` iff no lower-cased skill equals any keyword of any list, and `Other` is exactly the field with no recommended skills |
| `FieldClassifier.UnlistedSkillIsOther` | api.py:109-133 | a lone skill that no list contains is classified `Other` |
| `FieldClassifier.FlaskIsDataScience` | api.py:103-118 | "flask" is in both the Data Science and Web lists, and a skill set with "flask" is always Data Science |
| `FieldClassifier.MatchIsExact` | api.py:114-130 | matching is whole-string list membership: "reactive programming" matches nothing, although it contains "react" |
| `FieldClassifier.ClassifyIgnoresCase` | api.py:100-117 | a skill spelled "Python" in any case makes the résumé Data Science |
| `SectionScanner.ScanSections` | api.py:136-152 | the loop's breakdown has exactly the table's section keys, each true iff one of its keywords is a substring of the lower-cased text, and the score is 20 times the number of true entries |
| `SectionScanner.ScanStep` | api.py:147-152 | one iteration adds the next section's key with its presence and adds 20 exactly when it is present |
| `SectionScanner.SectionTableShape` | api.py:139-145 | the section table has five distinct keys: objective, declaration, hobbies, achievements, projects |
| `SectionScanner.ScoreIsBounded` | api.py:147-152 | a scan's score is a multiple of 20 and at most 20 per section |
| `SectionScanner.SourceScoreValues` | api.py:136-152 | with the source's table the breakdown keys are the five sections and the score is one of 0, 20, 40, 60, 80, 100 |
| `SectionScanner.NamesCardinality` | api.py:139-145 | a table with distinct keys has as many keys as entries |
| `SectionScanner.NoKeywordsScoresZero` | api.py:136-152 | a text containing none of the keywords scores 0 with every section false |
| `SectionScanner.ExampleProjectsAndCertifications` | api.py:87-152 | a text with the headings "Projects" and "Certifications", and none of the objective, declaration or hobbies keywords in any casing, gives, once lower-cased and scanned, exactly achievements and projects true and a score of 40 |
| `Recommendations.Shuffle` | api.py:64 | `random.shuffle` leaves the list a permutation of itself: same length, same multiset of entries |
| `Recommendations.FirstRecords` | api.py:65-69 | the loop over `course_list[:5]` yields min(5, length) records, the k-th carrying the k-th entry's name and link |
| `Recommendations.RecommendCourses` | api.py:60-69 | after the call the caller's list is a permutation of what it was, and the result is the first min(5, length) entries of the shuffled list, in order, as name/link records |
| `Recommendations.NoDuplicatesOccurOnce` | api.py:64 | in a list without repeats no entry occurs twice in its multiset |
| `Recommendations.PermutationKeepsNoDuplicates` | api.py:64 | shuffling a list without repeated entries leaves it without repeats |
| `Recommendations.RecommendationsFromCatalog` | api.py:64-69 | the recommended records number at most five and at most the catalog's length, each comes from an entry of the catalog as it was before the call, and none repeats when the catalog has no repeated entry |
| `Recommendations.ChooseVideo` | api.py:155-156 | the pick is None iff the pool is empty, otherwise an element of the pool |
| `Analyzer.CheckParse` | api.py:77-83 | a parser exception gives an error made of the fixed prefix followed by the exception's message; an empty parse gives the fixed "Could not extract any data" error; only a parsed record goes on |
| `Analyzer.Catalog.constructor` | api.py:24-28 | the five course lists become five distinct arrays with the given contents; the two video pools are kept as given |
| `Analyzer.CourseListsDistinct` | api.py:113-133 | in a catalog built from five lists, two fields' course recommender calls use the same list only when the fields are the same, so each field shuffles only its own list |
| `Analyzer.RecommendForField` | api.py:113-133 | `Other` recommends no course and shuffles nothing; any other field shuffles only its own list and recommends its first min(5, length) entries |
| `Analyzer.Evaluate` | api.py:85-176 | the report passes name, email, mobile number, skills and page count through, and carries the level label, field name, recommended skills, courses, section score and breakdown, and video picks as above |
| `Analyzer.AnalyzeResume` | api.py:72-176 | a failed parse returns its error whatever the text extractor would do, and nothing is shuffled; a text-extractor exception propagates unchanged; otherwise the result is the full report |
| `Analyzer.ExampleDataScienceFresher` | api.py:89-118 | skills "python" and "tensorflow" with one page give "Data Science" and "Fresher" |
| `Analyzer.ExampleOtherExperienced` | api.py:92-133 | a record whose lone skill is "Excel" gives `Other` with no recommended skills, and five pages give "Experienced" |

## Left out

- Text extraction with pdfminer3 (`pdf_reader`, api.py:43-57) is file I/O. Its outcome (a text or an exception message) is an input.
- The structured-field extractor (`ResumeParser(...).get_extracted_data()`, api.py:78) is a third-party NLP library. Its outcome (an exception message, an empty result, or a record) is an input.
- The Flask application, CORS, the upload folder, the `/analyze` route and the temporary file's save and delete (api.py:179-245) are HTTP and filesystem plumbing.
- The NLTK data download (api.py:33-39) is environment setup.
- `Courses.py` is not part of this model. The catalog's course lists and video pools are constructor arguments, and the import fallback to empty lists (api.py:24-29) is covered by passing empty sequences. Video entries are modelled as strings.
- The randomness of `random.shuffle` and `random.choice` is not modelled. Each random draw is an arbitrary choice, so every contract holds for every possible draw. Uniformity is not stated.
- The `datetime.now()` timestamp (api.py:173) is a parameter of the analysis.
- The race between concurrent requests on the shared course lists is out of scope for this sequential model.
- Text.Lower: only the ASCII letters A-Z are lowered. Python's `str.lower` also lowers other Unicode letters.
- A record whose `no_of_pages` or `skills` key is present but holds `None` would raise a `TypeError` in the source. The model only has "missing" (`None` in `Option`), which means the default, 0 pages or no skills.
- Catalog entries are typed as (name, link) pairs. So the unpacking error an entry of another shape would raise cannot happen.
