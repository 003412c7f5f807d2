# Neura RUET backend core in Dafny

This project models the deterministic core of the Neura RUET student-app
backend. That backend is a FastAPI service for students, class
representatives (CRs) and teachers of RUET. The model covers the following
parts:

- **AI chat tools.** These are the decisions each tool pipeline takes after
  the language model has answered:
  - `check_marks`: course-code and roll normalisation, the forced re-ask,
    result-sheet and entry selection, and the replies;
  - `generate_cover_page`: the profile-over-reply merge, the required fields
    per cover type, the file name, and the cover layout with its greedy word
    wrapping;
  - `generate_marksheet`: the required fields, CT coverage, the roll-range
    fallback, and the mark-sheet table with its marks map and per-CT
    statistics;
  - `find_materials` and `view_notices`: the material types and their
    fallbacks, and the scope filters.
- **The chat around the tools.** This is the history window, the intent gate
  and its fallback, the intent router, the payload sent to the language model,
  and the name-to-handler tool registry.
- **Notices.** Teacher and CR notices can be created, listed, read, updated
  and deleted. The model also covers the student feed and push-recipient
  selection, with FCM result classification and token deactivation.
- **Device tokens.** Registering a device token either adds its row or updates
  the existing one; a token can also be deactivated.
- **Course materials.** Class notes, lecture slides, CT questions and semester
  questions have their schemas and their owned create/list/get/patch/delete.
- **Result sheets.** Sheet creation is checked for duplicates, entries are
  upserted in batches, and reads check ownership.
- **Accounts.** Access tokens are built and checked, and the setup token is
  told apart from a JWT. The model covers login, profile setup, refresh and
  logout for students, CRs and teachers. It also covers the OTP password
  reset, the password change, and the Pydantic field validators of every
  profile schema.

Pure code is modelled as datatypes, functions and lemmas. The source has
loops in several places: the candidate scan, the wrap loops, the table
builders, the deactivation of failed tokens and the message lists. Each of
those loops is a method with loop invariants, proved against a
specification function. Recipient de-duplication is `dict.fromkeys` in the
source and a recursive function here. Tables that the routers mutate are classes with `seq` fields. The
routers' methods are stated as the function that specifies each route,
applied to the old state. These tables are `AccountRouter`, `NoticeTable`,
`MaterialTable`, `ResultTables`, `DeviceTokenTable` and the tool `Registry`.

Everything the code reaches outside itself is a parameter of the model:

- the language model's replies, and the JSON decoding of them;
- embeddings, and the order of the vector search;
- database rows, given newest first where the query orders them;
- the clock, random OTPs and `secrets` tokens;
- password hashing and verification;
- JWT encoding and decoding;
- whether sending a mail fails;
- FCM's response;
- the string-width measure.

Python's own semantics are written out where the code depends on them:

- truthiness;
- `True == 1`;
- `str(None) == "None"`;
- SQL `NULL` comparisons;
- `dict.fromkeys` de-duplication;
- ASCII `str` methods;
- Pydantic's field bounds and defaults.

The modules `Text`, `Json` and `Common` hold these helpers: string built-ins,
JSON values, and `Option`/`Result` with the error kinds.

## Model

| member | source | states |
|---|---|---|
| CheckMarks.Validate | app/schemas/ai_schemas/check_marks_schema.py:4-14 | a mode other than "ok", "ask" or "wrong_tool" is refused; each absent field takes its declared default (mode "ok", course code "", no CT, no question, no missing fields, no message); a given mode becomes its own value, and a given course code, CT, question, missing-field list and message are kept |
| CheckMarks.Cleaned | app/services/check_marks_service.py:26 | the stripped, upper-cased text has no lower-case letter, no blank and no underscore |
| CheckMarks.InsertHyphen | app/services/check_marks_service.py:28-29 | seven characters of three letters and four digits become a canonical code `LLL-DDDD` |
| CheckMarks.AlreadyCanonical | app/services/check_marks_service.py:31-32 | eight characters of three letters, a hyphen and digits are returned unchanged, already canonical |
| CheckMarks.Recover | app/services/check_marks_service.py:34-42 | the recovery branch yields "" or a canonical code |
| CheckMarks.NormalizeCourseCode | app/services/check_marks_service.py:19-42 | an empty input gives ""; every result is "" or a canonical `LLL-DDDD` code |
| CheckMarks.NormalizeCourseCodeIdempotent | app/services/check_marks_service.py:19-42 | normalising a normalised code changes nothing |
| CheckMarks.NormalizeSevenForm | app/services/check_marks_service.py:28-29 | when the cleaned text is letters+digits of length 7, the result is it with a hyphen inserted |
| CheckMarks.NormalizeEightForm | app/services/check_marks_service.py:31-32 | when the cleaned text is already `LLL-DDDD`, the result is the cleaned text |
| CheckMarks.NormalizeOtherForm | app/services/check_marks_service.py:34-42 | any other cleaned text goes through the hyphen collapse and recovery |
| CheckMarks.NormalizeCourseCodeSpellings | app/services/check_marks_service.py:19-42 | "cse1202", "cse 1202", "cse_1202" and "cse-1202", in any letter case, all give "CSE-1202" (three letters, an optional blank, underscore or hyphen, four digits) |
| CheckMarks.NormalizeCourseCodeTruncates | app/services/check_marks_service.py:35-41 | a longer hyphenated code keeps only the first three letters and the first four digits: "CSEE-12345" gives "CSE-1234" |
| CheckMarks.CollapseHyphensNoDouble | app/services/check_marks_service.py:34 | `replace("--", "-")` leaves a text without a double hyphen unchanged |
| CheckMarks.SplitAtOnlySeparator | app/services/check_marks_service.py:36 | `split("-")` of a text with one hyphen gives its two sides |
| CheckMarks.RecoverTwoParts | app/services/check_marks_service.py:36-41 | recovery of `letters-digits` (four or more letters, five or more digits) gives the three-letter and four-digit prefixes |
| CheckMarks.CourseCodeKey | app/services/check_marks_service.py:45-46 | the key holds only upper-case letters and digits |
| CheckMarks.CourseCodeKeyIgnoresCase | app/services/check_marks_service.py:45-46 | codes that differ only in letter case have the same key |
| CheckMarks.CourseCodeKeyIgnoresSeparator | app/services/check_marks_service.py:45-46 | removing a non-alphanumeric separator does not change the key |
| CheckMarks.NormalizeRoll | app/services/check_marks_service.py:49-53 | the result is all digits and holds exactly the digits of the roll |
| CheckMarks.NormalizeRollOfDigits | app/services/check_marks_service.py:49-53 | an all-digit roll is kept as it is |
| CheckMarks.MissingAfterNormalize | app/services/check_marks_service.py:89-93 | "course_code" is listed iff the code is empty, "ct_no" iff the CT is absent, in that order |
| CheckMarks.AfterParse | app/services/check_marks_service.py:85-103 | a non-"ok" extraction passes unchanged; an "ok" one stays "ok" iff its normalised code is non-empty and a CT is given, and then carries the normalised code; otherwise it becomes "ask" with the fixed question and the missing fields |
| CheckMarks.ExtractJson | app/services/check_marks_service.py:56-103 | an "ok" result always has a canonical code and a CT; a reply that does not parse and has no braces gives the fixed "ask" extraction for both fields |
| CheckMarks.NewestInSection | app/services/check_marks_service.py:146-156 | the pick is a sheet of the student's dept, series, course key, CT and section; none iff no such sheet exists |
| CheckMarks.NewestInSectionIsNewest | app/services/check_marks_service.py:154-155 | on a newest-first table the pick is at least as new as every matching sheet of the section |
| CheckMarks.FirstWithEntryIsFirst | app/services/check_marks_service.py:165-184 | the pick is the first in-scope candidate that holds the roll's entry, with that entry; none iff no in-scope candidate holds one |
| CheckMarks.Select | app/services/check_marks_service.py:143-184 | the chosen sheet is in the student's dept and series, for the course key and CT (and of the student's section when there is one); a chosen entry belongs to that sheet and has the roll; with a section, a sheet without an entry means the sheet holds no entry for the roll |
| CheckMarks.ScanCandidates | app/services/check_marks_service.py:174-184 | the for-loop with `break` returns a sheet exactly when it returns an entry, and they are the first candidate with the roll's entry |
| CheckMarks.ReplyWithoutLookup | app/services/check_marks_service.py:122-126 | "wrong_tool" and "ask" are answered from the extraction alone (message or question, else the fixed default), whatever the profile and tables hold |
| CheckMarks.Reply | app/services/check_marks_service.py:107-248 | for an "ok" extraction the reply is the roll, no-sheet or not-available message, or the grounded answer for the student's own entry in an in-scope sheet, given that sheet's course name ("Unknown" when it is empty) |
| CheckMarks.RollCheckedFirst | app/services/check_marks_service.py:136-138 | a profile roll without digits gives the fixed "roll number is not set" reply before any sheet is read |
| CheckMarks.NoSectionSheetHasEntry | app/services/check_marks_service.py:164-192 | without a profile section, a sheet is chosen iff an entry is, so the "not available yet" reply cannot occur on that path |
| CoverService.ParseCoverType | app/services/cover_gen_service.py:177-179 | exactly "lab_report", "assignment" and "report" name a cover type; anything else, "ask" included, is refused |
| CoverService.Required | app/services/cover_gen_service.py:22-39 | every type requires the twelve common fields; only the lab report adds the experiment date; section and cover title are never required |
| CoverService.KeepSafe | app/services/cover_gen_service.py:62 | the kept characters are exactly the input's letters, digits, `_` and `-` |
| CoverService.SafeFilename | app/services/cover_gen_service.py:60-63 | the result holds only letters, digits, `_` and `-`, each from the input or a blank turned into `_` |
| CoverService.SafeFilenameOfSafe | app/services/cover_gen_service.py:60-63 | a text already made of safe characters is kept as it is |
| CoverService.SafeFilenameIdempotent | app/services/cover_gen_service.py:60-63 | cleaning a cleaned name again changes nothing |
| CoverService.DeptFullName | app/services/cover_gen_service.py:42-57 | a known department code gives its full name from the table; another code is kept |
| CoverService.StudentProfileContext | app/services/cover_gen_service.py:66-85 | the context's name, roll, section and department come from the profile with "" for missing values; the series is "" iff the stripped series is empty, else "Series " and the series |
| CoverService.ProfileDeptIsFullNameOrCode | app/services/cover_gen_service.py:67-70 | the department is either the table's full name for the upper-cased code or that code itself |
| CoverService.FieldOr | app/services/cover_gen_service.py:115-130 | `d.get(key, "") or ""` gives the stored text, or "" when the key is absent or null (values are text or null only; see Left out) |
| CoverService.DropLeadingFence | app/services/cover_gen_service.py:98 | a text not starting with a fence is kept; otherwise the fence, an optional `json` tag and the blanks after it are removed |
| CoverService.DropTrailingFence | app/services/cover_gen_service.py:99 | a text not ending in a fence is kept; otherwise the closing fence and the blanks before it are removed |
| CoverService.SafeParseJson | app/services/cover_gen_service.py:88-109 | no output or blank output is the "empty output" error, and only that; every success came from a non-blank reply |
| CoverService.BraceRetry | app/services/cover_gen_service.py:104-109 | the fallback fails with "did not return JSON" or a decode error, nothing else |
| CoverService.SafeParsePlain | app/services/cover_gen_service.py:101-102 | an unfenced, already stripped reply that decodes is returned as decoded |
| CoverService.SafeParseFenced | app/services/cover_gen_service.py:96-102 | a reply of the body between a fence with an optional `json` tag and a closing fence decodes as its body |
| CoverService.SafeParseEmbedded | app/services/cover_gen_service.py:103-109 | a reply that does not decode but holds one `{...}` object decodes as that object |
| CoverService.SafeParseNoObject | app/services/cover_gen_service.py:105-108 | a reply that does not decode and lacks a brace is the "did not return JSON" error |
| CoverService.Merge | app/services/cover_gen_service.py:112-132 | the extractor's fields come from the reply ("" when absent or null); the student's name, roll, department, section and series come from the profile only |
| CoverService.MergeProfileWins | app/services/cover_gen_service.py:125-130 | whatever the reply says, the profile fields are the profile's |
| CoverService.MissingFields | app/services/cover_gen_service.py:135-150 | the for-loop collects the same list as the specification function `MissingFieldsOf` |
| CoverService.MissingFieldsMembers | app/services/cover_gen_service.py:135-150 | a field is missing iff it is required for the type and blank after stripping; the list keeps the required order |
| CoverService.TypeName | app/services/cover_gen_service.py:136-141 | the name of each type parses back to that type |
| CoverService.ZFill | app/services/cover_gen_service.py:265 | Python's `zfill`: the width is reached with zeros placed after an optional sign; a longer text is unchanged |
| CoverService.ZFillOneDigit | app/services/cover_gen_service.py:265 | one digit becomes "0" and the digit |
| CoverService.CoverFilenameSafe | app/services/cover_gen_service.py:240-251 | with a safe timestamp the file name is made of safe characters and dots, starts with the cleaned course code, `_`, the type token and `-`, and ends in ".pdf" |
| CoverService.CoverTypeReply | app/services/cover_gen_service.py:171-186 | a type reply that does not parse is echoed back; a parsed reply that names no cover type gives the fixed menu whatever the second reply holds |
| CoverService.CoverGenerated | app/services/cover_gen_service.py:188-295 | the cover is generated iff no required field is blank and the stripped number parses as an integer; then the student fields come from the profile, the number is zero-filled to two places, the label is the type's, the experiment date is kept only for a lab report and the reply names the download |
| CoverService.RunCoverPipeline | app/services/cover_gen_service.py:153-295 | a generated cover always carries the profile's name, roll, department, series and section, whatever the replies say, and its reply names the download; a request for fields names at least one |
| CoverService.CoverFromPayload | app/services/cover_gen_service.py:208-295 | a cover is generated iff no required field is blank and the stripped number parses; otherwise the fields asked for are exactly the blank required ones; a generated request is the payload's and the reply names its file |
| CoverService.CoverAsksForBlank | app/services/cover_gen_service.py:207-225 | a blank required field, from the reply or the profile, is among the fields asked for, which keep the required order |
| CoverLayout.ResolvePath | app/services/cover_generator.py:38-42 | an absent or empty path is None; an absolute path is returned as `str(Path(p))`, its normalised text; a relative one is resolved under the base directory |
| CoverLayout.WrapText | app/services/cover_generator.py:92-108 | the greedy loop returns the lines of the specification function `WrapTextSpec` |
| CoverLayout.WrapTextJoin | app/services/cover_generator.py:92-108 | the lines joined by blanks give back the text's words joined by blanks: no word is lost, reordered or split |
| CoverLayout.WrapTextLines | app/services/cover_generator.py:98-107 | every line is empty, a single word, or fits the width |
| CoverLayout.WrapTextBlank | app/services/cover_generator.py:94-96 | a text without words gives one empty line |
| CoverLayout.WrapHardSplit | app/services/cover_generator.py:111-155 | the word loop with its per-character hard split returns the lines of `HardSplitSpec` |
| CoverLayout.HardSplitLines | app/services/cover_generator.py:111-155 | a blank text gives one empty line; otherwise at least one line, and each line is non-empty and fits the width or is a single character |
| CoverLayout.HardSplitJoin | app/services/cover_generator.py:111-155 | no character is lost, added or reordered: the lines glued together, spaces left out, spell the words of the stripped text one after another |
| CoverLayout.HardFromJoin | app/services/cover_generator.py:128-153 | the word loop keeps every character: apart from the spaces it inserts, its lines spell the open line and the remaining words in order |
| CoverLayout.ChunkFromJoin | app/services/cover_generator.py:139-148 | the character loop keeps every character: the closed chunks and the open chunk spell exactly the characters of the word |
| CoverLayout.SplitLines | app/services/cover_generator.py:185 | `str.splitlines()`: no row holds a line boundary ("\n", "\r", "\r\n", "\v", "\f", "\x1c" to "\x1e", "\x85", "\u2028", "\u2029"), and only the empty text has no rows |
| CoverLayout.SplitLinesJoin | app/services/cover_generator.py:185 | a text whose only boundaries are single "\n" characters, not ending in one, is its rows joined by "\n": no character is lost |
| CoverLayout.CarriageReturnSplits | app/services/cover_generator.py:185 | a lone carriage return ends a row: "a\rb" gives the rows "a" and "b" |
| CoverLayout.RawLines | app/services/cover_generator.py:185 | `splitlines() or [""]` always gives at least one row |
| CoverLayout.CellMaxWidth | app/services/cover_generator.py:182 | the wrap width is never below 1 |
| CoverLayout.WrappedBlock | app/services/cover_generator.py:181-189 | the cell's lines are each raw row wrapped with hard splitting, concatenated in order |
| CoverLayout.WrapEachRow | app/services/cover_generator.py:186-188 | the for-loop's `extend` builds exactly `WrapRows` |
| CoverLayout.WrapRowsKeepsRows | app/services/cover_generator.py:186-188 | every row contributes at least one line |
| CoverLayout.WrapRowsInOrder | app/services/cover_generator.py:186-188 | the wrap of row i follows the wraps of the rows before it |
| CoverLayout.DetailRows | app/services/cover_generator.py:415-457 | the cover title row appears iff the title is not blank, wrapped; the course title shows its first one or two wrapped lines; the experiment date row appears iff the date is not blank |
| MarkSheet.FullMarks | app/services/mark_sheet_generator.py:57-63 | one integer is repeated for every CT; a list is accepted iff it has one mark per CT and is kept as given; otherwise "ct_full_marks must match ct_count" |
| MarkSheet.Range | app/services/mark_sheet_generator.py:70 | the rolls are the decimal texts of start to end inclusive, in order |
| MarkSheet.RollRange | app/services/mark_sheet_generator.py:65-70 | the range is accepted iff end is not below start, and then has end - start + 1 rolls; otherwise "to_roll must be >= from_roll" |
| MarkSheet.CleanAll | app/services/mark_sheet_generator.py:75-77 | each entry's roll and marks are stripped, one cell per entry |
| MarkSheet.BuildMarksMap | app/services/mark_sheet_generator.py:72-79 | the for-loop builds the map of the specification function `MarksMapOf` |
| MarkSheet.MapDomain | app/services/mark_sheet_generator.py:78-79 | a (roll, CT) key is in the map iff some entry with a non-empty roll and a CT between 1 and the CT count has it |
| MarkSheet.MarksMapLastWins | app/services/mark_sheet_generator.py:78-79 | for a repeated key the map holds the last entry's stripped marks |
| MarkSheet.ParseMark | app/services/mark_sheet_generator.py:256-262 | an empty mark and an absent mark "A" (any case, any blanks) give no number; any number comes from parsing the text |
| MarkSheet.NumericFromRolls | app/services/mark_sheet_generator.py:82-87 | every value counted for a CT is the parsed mark of some roll of the range |
| MarkSheet.CollectNumeric | app/services/mark_sheet_generator.py:82-87 | the nested loops collect, per CT, the parsed marks of the rolls in roll order |
| MarkSheet.MaxOf | app/services/mark_sheet_generator.py:93 | the maximum is one of the values and no value exceeds it |
| MarkSheet.MinOf | app/services/mark_sheet_generator.py:94 | the minimum is one of the values and none is below it |
| MarkSheet.StatOf | app/services/mark_sheet_generator.py:91-99 | a CT without numbers shows "0.0", "0.0" and "#DIV/0!" (or "0.0" when that is switched off); otherwise the highest and lowest shown are values of the CT bounding all others |
| MarkSheet.Stats | app/services/mark_sheet_generator.py:89-99 | the loop produces one statistics cell triple per CT, each the statistics of that CT |
| MarkSheet.HeaderRow | app/services/mark_sheet_generator.py:192 | "Roll No." then "CT-" and the two-digit CT number for each CT |
| MarkSheet.RollRow | app/services/mark_sheet_generator.py:198-202 | the roll then its mark for each CT, "" where none was given |
| MarkSheet.BuildRollRow | app/services/mark_sheet_generator.py:199-201 | the for-loop builds exactly `RollRow` |
| MarkSheet.TableOf | app/services/mark_sheet_generator.py:190-202 | the header, the "Marks", "Highest", "Lowest" and "Average" rows, then one row per roll in order |
| MarkSheet.BuildTable | app/services/mark_sheet_generator.py:190-202 | the table is built as `TableOf` |
| MarkSheet.TableRowWidths | app/services/mark_sheet_generator.py:190-204 | every row has one cell per CT plus the label |
| MarkSheet.AbsentCells | app/services/mark_sheet_generator.py:236-241 | the nested loops collect exactly `AbsentRows` |
| MarkSheet.AbsentCellsExact | app/services/mark_sheet_generator.py:237-239 | a cell is styled as absent iff it is a mark cell of a roll row whose stripped, upper-cased text is "A" |
| MarkSheet.HeadingSection | app/services/mark_sheet_generator.py:163-173 | the section appears in the heading iff it is given and, stripped and upper-cased, is "A", "B" or "C"; it is shown upper-cased |
| MarkSheet.GenerateMarkSheet | app/services/mark_sheet_generator.py:41-249 | the method's headings, table and absent cells are those of `MarkSheetSpec` |
| MarkSheet.MarkSheetSpec | app/services/mark_sheet_generator.py:41-249 | an accepted sheet has an ordered roll range, five heading paragraphs and at least the five label rows; a cell is styled as absent iff it is a mark cell of a roll row whose text reads as absent |
| MarkSheet.MarkSheetErrors | app/services/mark_sheet_generator.py:57-68 | the sheet fails iff the full marks or the roll range fail, the full-marks error first |
| MarkSheet.TableRollColumn | app/services/mark_sheet_generator.py:198-202 | row 5 + i starts with the i-th roll |
| MarkSheet.MarkSheetShape | app/services/mark_sheet_generator.py:190-202 | an accepted sheet has five label rows and one row per roll of the range, each as wide as the CT count plus one |
| MarksheetService.Hyphenate | app/services/generate_marksheet_service.py:19-21 | a code of seven or more characters without a hyphen gets one after the third character; the characters other than hyphens are unchanged |
| MarksheetService.NormalizeCourseCode | app/services/generate_marksheet_service.py:16-22 | the result is upper-case, without blanks or underscores, has a hyphen when it is seven or more long, and keeps the cleaned code's other characters |
| MarksheetService.NormalizeCourseCodeIdempotent | app/services/generate_marksheet_service.py:16-22 | normalising twice is normalising once |
| MarksheetService.NormalizeCourseCodeSpellings | app/services/generate_marksheet_service.py:17 | three letters, an optional blank, underscore or hyphen, and four or more digits all give the letters upper-cased, a hyphen and the digits |
| MarksheetService.DeptFullName | app/services/generate_marksheet_service.py:25-41 | a known code, compared upper-cased and stripped, gives its full name; otherwise the text is returned as given |
| MarksheetService.DeptFullNameIgnoresCase | app/services/generate_marksheet_service.py:41 | a known code spelt in lower or upper case gives the same name |
| MarksheetService.SafeName | app/services/generate_marksheet_service.py:44-46 | same length; letters, digits, `-` and `_` are kept in place and every other character becomes `_` |
| MarksheetService.SafeNameIdempotent | app/services/generate_marksheet_service.py:44-46 | cleaning a cleaned name changes nothing |
| MarksheetService.Sort | app/services/generate_marksheet_service.py:149 | `sorted` returns an ascending permutation of its input |
| MarksheetService.SortIgnoresOrder | app/services/generate_marksheet_service.py:149 | lists with the same elements sort to the same list |
| MarksheetService.MissingRequired | app/services/generate_marksheet_service.py:75-76 | a required key is reported iff its value is missing or falsy, in the order dept, section, series, course code, CT |
| MarksheetService.RequestOf | app/services/generate_marksheet_service.py:80-84 | department and section are upper-cased and stripped, the series stripped, the CT list kept as integers |
| MarksheetService.MatchingSheets | app/services/generate_marksheet_service.py:92-104 | the selected sheets are exactly the teacher's own sheets for the department, section, series, course code and one of the CTs |
| MarksheetService.MissingCts | app/services/generate_marksheet_service.py:109-110 | a requested CT is reported iff no selected sheet has it, in request order |
| MarksheetService.BuildBatch | app/services/generate_marksheet_service.py:114-120 | the nested loops give the entries of each selected sheet in order, each with its sheet's CT |
| MarksheetService.BatchMembersComplete | app/services/generate_marksheet_service.py:116-120 | every entry of every selected sheet is in the batch |
| MarksheetService.BatchMembersSourced | app/services/generate_marksheet_service.py:116-120 | every batch row comes from an entry of a selected sheet |
| MarksheetService.RollNumbers | app/services/generate_marksheet_service.py:132-133 | exactly the rolls that parse as integers |
| MarksheetService.FromRoll | app/services/generate_marksheet_service.py:135 | a parsed non-zero starting roll wins; otherwise the smallest parsed roll, or 0 without one |
| MarksheetService.ToRoll | app/services/generate_marksheet_service.py:136 | a parsed non-zero ending roll wins; otherwise the largest parsed roll, or 0 without one |
| MarksheetService.FallbackRangeOrdered | app/services/generate_marksheet_service.py:135-136 | without stored bounds, the range taken from the entries is never reversed |
| MarksheetService.FileName | app/services/generate_marksheet_service.py:144-151 | the name starts with the cleaned course code and "_CT-" and ends in ".pdf" |
| MarksheetService.FileNameIgnoresCtOrder | app/services/generate_marksheet_service.py:149-151 | requests that differ only in the order of the CTs give the same file name |
| MarksheetService.SuccessTextMojibake | app/services/generate_marksheet_service.py:172-175 | the emoji as written are the UTF-8 bytes read as Windows-1252, so the reply differs from the intended one |
| MarksheetService.SuccessText | app/services/generate_marksheet_service.py:170-175 | the corrected reply starts with the party popper and ends with the download path of the file |
| MarksheetService.ArgsOf | app/services/generate_marksheet_service.py:122-165 | the generator gets the batch, the first sheet's course name, the full department name, the section, four CTs of 20 marks and the "#DIV/0!" average |
| MarksheetService.RunMarksheetPipeline | app/services/generate_marksheet_service.py:49-175 | the pipeline returns what `MarksheetSpec` describes |
| MarksheetService.MarksheetSpec | app/services/generate_marksheet_service.py:64-72 | a reply that does not decode is 400 "Failed to parse…"; a decoded value that is not an object has no `get`; any outcome comes from a decoded object |
| MarksheetService.Respond | app/services/generate_marksheet_service.py:71-92 | an "ask" reply is always asked back; a mark sheet is generated only when the mode is not "ask" and no required field is missing |
| MarksheetService.Collect | app/services/generate_marksheet_service.py:94-175 | the outcome is a message or a mark sheet; a mark sheet needs a matching sheet, carries the request's file name, the full department name and the section, and its reply names the file |
| MarksheetService.CollectSheets | app/services/generate_marksheet_service.py:94-175 | the queries, the coverage check, the batch loop and the generator call return what `Collect` describes |
| MarksheetService.AskIgnoresSheets | app/services/generate_marksheet_service.py:71-72 | an "ask" reply is answered without regard to any sheet or entry |
| MarksheetService.MissingReported | app/services/generate_marksheet_service.py:74-78 | a missing required field gives the "Missing:" reply, and it lists that field |
| MarksheetService.GeneratedFromMatchingSheets | app/services/generate_marksheet_service.py:91-165 | a generated sheet covers every requested CT, its batch holds exactly the entries of the matching sheets, and its file name is the request's |
| MarksheetService.CollectRefusals | app/services/generate_marksheet_service.py:106-112 | with no matching sheet the reply is "No matching result sheets…"; with a requested CT uncovered, a message and no sheet |
| FindMaterials.TypeToModelDomain | app/services/find_materials_service.py:19-26 | the type-to-table map is defined on exactly the four allowed types and sends different types to different tables |
| FindMaterials.PyFloat | app/services/find_materials_service.py:82 | Python `float()` of an integer or float is its value, of a text its parse, and fails on null, lists and objects |
| FindMaterials.Clamp | app/services/find_materials_service.py:85 | the confidence is clamped into [0, 1] and unchanged inside it |
| FindMaterials.DetectMaterialType | app/services/find_materials_service.py:68-88 | the type is always an allowed one with a confidence in [0, 1]; a reply that is not a JSON object falls back to ("classnote", 0.0) |
| FindMaterials.DetectKeepsAllowed | app/services/find_materials_service.py:81-86 | an allowed type with a confidence in [0, 1] is returned as given |
| FindMaterials.DetectRejectsUnknown | app/services/find_materials_service.py:83-84 | a missing or unknown type gives the fallback whatever the confidence |
| FindMaterials.DetectedTypeHasTable | app/services/find_materials_service.py:143-144 | the lookup `TYPE_TO_MODEL[material_type]` never fails |
| FindMaterials.UserType | app/services/find_materials_service.py:31 | "Teacher" iff the user has a teacher id or the role "teacher", else "Student" |
| FindMaterials.ProfileSection | app/services/find_materials_service.py:30 | a truthy `section` wins, otherwise `sec` |
| FindMaterials.ProfileContextLabel | app/services/find_materials_service.py:29-36 | the profile text starts with the teacher label iff the user is a teacher |
| FindMaterials.SerializeRowKeys | app/services/find_materials_service.py:47-65 | a serialised row has exactly the twelve listed keys |
| FindMaterials.Candidates | app/services/find_materials_service.py:106-110 | the candidates are exactly the rows with an embedding and the user's department, in order |
| FindMaterials.SimilaritySearch | app/services/find_materials_service.py:91-113 | no department gives no rows; a table without an embedding column raises the missing-attribute error; otherwise the first `top_k` candidates in distance order |
| FindMaterials.SearchIsDeptOnly | app/services/find_materials_service.py:98-113 | every returned row is a candidate of the user's department; when the table has embeddings and there are no more than `top_k` candidates, all are returned |
| FindMaterials.ChooseUser | app/services/find_materials_service.py:131 | the teacher wins when both are given |
| FindMaterials.AnswerMessages | app/services/find_materials_service.py:155-160 | four user messages, the first the profile context |
| FindMaterials.FindMaterialsCall | app/services/find_materials_service.py:116-168 | no answer call iff no user; the pipeline raises the missing `vector_embeddings` attribute iff a user with a department gets the type "semester_question" |
| FindMaterials.RunFindMaterials | app/services/find_materials_service.py:132-151 | without a user the reply is "Error: No user context provided."; it raises exactly in the semester-question case, else answers |
| FindMaterials.TeacherPreferred | app/services/find_materials_service.py:131-165 | with a teacher, the call raises iff the teacher has a department and the type is "semester_question"; otherwise the answer call keeps the history first, then the teacher's profile, and holds at most `top_k` rows of the searched table in the teacher's department |
| FindMaterials.SemesterQuestionsRaise | app/services/find_materials_service.py:106-112 | a student with a department whose question is detected as "semester_question" gets the missing-attribute error, not an answer |
| FindMaterials.SearchesDetectedTable | app/services/find_materials_service.py:143-151 | when the call is made, the searched table is the one the detected type names |
| FindMaterials.MaterialTypeOf | app/schemas/ai_schemas/find_materials_schemas.py:6-10 | exactly the four enum values are material types |
| FindMaterials.QueryModeOf | app/schemas/ai_schemas/find_materials_schemas.py:23-25 | exactly "query" and "ask" are modes |
| FindMaterials.MatchModeOf | app/schemas/ai_schemas/find_materials_schemas.py:13-15 | exactly "exact" and "contains" are match modes |
| FindMaterials.SortByOf | app/schemas/ai_schemas/find_materials_schemas.py:18-20 | exactly "newest" and "oldest" are sort orders |
| FindMaterials.ValidateOutput | app/schemas/ai_schemas/find_materials_schemas.py:28-76 | accepted iff no extra key, no null for a defaulted non-Optional field, the tool literal, known enum values, a material type, a limit of 1 to 50, a non-negative offset and a confidence in [0, 1]; left-out fields take their defaults (query, contains, 10, 0, newest, 0.7), given ones are kept |
| FindMaterials.NullIsNotAbsent | app/schemas/ai_schemas/find_materials_schemas.py:76 | a left-out confidence takes 0.7, an explicit null confidence is refused |
| FindMaterials.ValidateRoundTrip | app/schemas/ai_schemas/find_materials_schemas.py:28-76 | validating a valid output written back out gives the same output |
| FindMaterials.TypeVocabularies | app/schemas/ai_schemas/find_materials_schemas.py:6-10 | the detection names "classnote" and "lectureslide" are not schema values; "ct_question" and "semester_question" are |
| NoticeService.TeacherNotice | app/services/notice_service.py:26-56 | the corrected teacher notice keeps the audience as given (an absent section stays absent), is created by the teacher with the teacher role and no CR, and carries the embedding of its template or none; otherwise it is the notice as written |
| NoticeService.TeacherNoticeAsWritten | app/services/notice_service.py:26-36 | as written, the stored section is always text: the payload section, or "None" when there is none; dept, series and the teacher as creator are kept |
| NoticeService.TeacherTemplate | app/services/notice_service.py:40-45 | the teacher embedding text names a teacher as the author and ends with "Message: <message>." |
| NoticeService.CrTemplate | app/services/notice_service.py:84-90 | the CR embedding text names a CR as the author and ends with "Message: <message>." |
| NoticeService.SectionlessTeacherNoticeHidden | app/services/notice_service.py:34 | as written, a notice without a section is stored with the text "None" as its section and is shown to no student in the notice search |
| NoticeService.SectionlessTeacherNoticeVisible | app/services/notice_service.py:26-56 | the corrected notice without a section reaches every student of its department and series |
| NoticeService.SectionedTeacherNoticeAudience | app/services/notice_service.py:33-35 | a notice with a section reaches a student of its department and series iff the sections agree |
| NoticeService.CrNotice | app/services/notice_service.py:60-102 | refused with 400 "CR profile missing dept/sec/series" iff the CR lacks one of them; otherwise the CR's dept, section and series, created by the CR with the CR role, with the stripped title and message |
| NoticeService.CrNoticeSectioned | app/services/notice_service.py:77-79 | a CR notice reaches only students of the CR's section |
| NoticeService.FindOwned | app/services/notice_service.py:119-127 | the index of the first row with the id created by the caller, or -1 iff there is none |
| NoticeService.FindOwnedUnique | app/services/notice_service.py:119-127 | with unique ids the row with the id is found iff the caller created it |
| NoticeService.Owned | app/services/notice_service.py:108-116 | exactly the rows created by the caller |
| NoticeService.FeedRows | app/services/notice_service.py:169-175 | exactly the rows of the student's dept, section and series |
| NoticeService.OwnedFirstPage | app/services/notice_service.py:108-116 | a first page of the caller's notices holds min(limit, n) of them, none left out is newer than one kept, and all of them when they fit |
| NoticeService.FeedFirstPage | app/services/notice_service.py:158-180 | a first page of a student's feed holds min(limit, n) of the matching notices, none left out is newer than one kept, and all of them when they fit |
| NoticeService.CrEdited | app/services/notice_service.py:186-226 | id, audience, creator and creation time are kept; a payload without a title or message changes nothing; a failed embedding keeps the old one |
| NoticeService.TeacherEdited | app/services/notice_service.py:245-293 | id, creator and creation time are kept; an empty payload changes nothing; an absent section keeps the old one; a failed embedding keeps the old one |
| NoticeService.SectionCannotBeCleared | app/services/notice_service.py:268-270 | a section sent as null or a null spelling is dropped by the schema, so an edit cannot remove a notice's section |
| NoticeService.NoticeTable.constructor | app/models/notice_models.py:6-15 | the table starts empty with unique ids |
| NoticeService.NoticeTable.CreateByTeacher | app/services/notice_service.py:26-56 | the new notice is the corrected `TeacherNotice` (a missing section stays absent, where the code as written stores "None"; see Findings) and is appended; ids stay unique |
| NoticeService.NoticeTable.CreateByCr | app/services/notice_service.py:60-102 | the result is `CrNotice`; only an accepted notice is appended |
| NoticeService.NoticeTable.Mine | app/services/notice_service.py:108-116 | at most `limit` of the caller's notices, newest first; a first page holds min(limit, n) of the caller's n notices, no notice of the caller left out is newer than one kept, and when all n fit every one of them is listed |
| NoticeService.NoticeTable.ById | app/services/notice_service.py:119-152 | found iff a row has the id and was created by the caller; otherwise 404 "Notice not found" |
| NoticeService.NoticeTable.StudentFeed | app/services/notice_service.py:158-180 | refused with 400 iff the student lacks dept, section or series; otherwise at most `limit` notices of the student's dept, section and series, newest first; a first page holds min(limit, n) of the n matching notices, none left out is newer than one kept, and when all fit every matching notice is listed |
| NoticeService.NoticeTable.UpdateByCr | app/services/notice_service.py:186-226 | an unowned id gives 404 and no change; otherwise the owned row, and only it, becomes `CrEdited` |
| NoticeService.NoticeTable.UpdateByTeacher | app/services/notice_service.py:245-293 | an unowned id gives 404 and no change; otherwise the owned row, and only it, becomes `TeacherEdited` |
| NoticeService.NoticeTable.Delete | app/services/notice_service.py:229-306 | an unowned id gives 404 and no change; otherwise exactly that row is removed |
| NoticeService.DeleteRemovesId | app/services/notice_service.py:238 | after a delete the id is no longer in the table |
| MaterialService.FindId | app/services/material_service.py:18-22 | the index of the first row with the id, or -1 iff none has it |
| MaterialService.GetOr404 | app/services/material_service.py:18-58 | found iff some row has the id, and then the first such row; otherwise 404 with the kind's own message ("Class note not found", "CT Question not found", …) |
| MaterialService.EnsureOwns | app/services/material_service.py:25-63 | 403 "Not allowed" iff the uploader is another CR; otherwise the row is returned as it is |
| MaterialService.TemplateHasNoNone | app/api/v1/endpoints/material_upload/cr_class_note_router.py:34-47 | the class-note template never contains the text "None" |
| MaterialService.NoneValuesDropped | app/api/v1/endpoints/material_upload/cr_class_note_router.py:36-47 | a part whose value is absent or contains "None" is left out of the template |
| MaterialService.EmbeddingUpdate | app/api/v1/endpoints/material_upload/cr_class_note_router.py:50-73 | the embedding becomes the first returned vector only when one of 384 values is returned; on any failure the old one is kept |
| MaterialService.EmbeddingUpdateFits | app/api/v1/endpoints/material_upload/cr_class_note_router.py:67-70 | a kept or replaced embedding still has the stored dimension |
| MaterialService.NewMaterial | app/api/v1/endpoints/material_upload/cr_class_note_router.py:79-107 | a new upload takes the payload's URL, names and (for class notes upper-cased) course code, takes dept, section and series from the CR, is owned by the CR, and only a class note gets an embedding |
| MaterialService.CreateCodeUpperOnce | app/api/v1/endpoints/material_upload/cr_class_note_router.py:89 | the schema's and the route's upper-casing together give the upper-cased code |
| MaterialService.Applied | app/api/v1/endpoints/material_upload/cr_class_note_router.py:150-160 | only the fields sent in the patch change (a course code upper-cased); id, kind, owner, creation time, audience and embedding stay |
| MaterialService.Patched | app/api/v1/endpoints/material_upload/cr_class_note_router.py:162-165 | a patch is the applied fields plus, for a class note touching a semantic field, a fresh embedding; otherwise the embedding is unchanged |
| MaterialService.EmptyPatchIsIdentity | app/api/v1/endpoints/material_upload/cr_class_note_router.py:140-169 | an empty patch leaves the row as it was |
| MaterialService.MaterialTable.constructor | app/models/class_note_models.py:13-58 | one empty table per material kind |
| MaterialService.MaterialTable.Create | app/api/v1/endpoints/material_upload/cr_class_note_router.py:79-107 | the new row is `NewMaterial` and is appended; ids stay unique |
| MaterialService.MaterialTable.List | app/api/v1/endpoints/material_upload/cr_class_note_router.py:110-126 | exactly the rows the CR uploaded for their own dept, section and series, newest first |
| MaterialService.MaterialTable.Get | app/api/v1/endpoints/material_upload/cr_class_note_router.py:129-137 | found iff the first row with the id is the CR's own; a missing id is 404 and someone else's row is 403 |
| MaterialService.MaterialTable.Patch | app/api/v1/endpoints/material_upload/cr_class_note_router.py:140-169 | refused as `Get` refuses, with no change; otherwise only that row becomes `Patched` |
| MaterialService.MaterialTable.Delete | app/api/v1/endpoints/material_upload/cr_class_note_router.py:172-183 | refused as `Get` refuses, with no change; otherwise exactly that row is removed |
| MaterialService.CreatedIsListed | app/api/v1/endpoints/material_upload/cr_class_note_router.py:79-126 | an upload appears in its uploader's list |
| MaterialService.OthersCannotReach | app/services/material_service.py:25-27 | a CR cannot read another CR's upload: 403 "Not allowed" |
| ViewNotices.HiddenSectionsReadAlike | app/services/view_notice_service.py:17-32 | a section that is absent, blank, "none" or "null" is left out of both texts, so such students read alike |
| ViewNotices.ProfileContext | app/services/view_notice_service.py:17-23 | the profile text opens with the dept, and a ", sec" entry follows it exactly when the section is not absent, blank, "none" or "null" |
| ViewNotices.QueryTemplate | app/services/view_notice_service.py:26-32 | the query text opens with the dept, has a ", section" entry after it exactly when the section is shown, and ends with the user text |
| ViewNotices.ShownSectionInProfile | app/services/view_notice_service.py:23 | any other section appears verbatim after "sec=" in the profile text |
| ViewNotices.CreatedByName | app/services/view_notice_service.py:50-56 | the creator's name is the teacher's for a teacher notice and the CR's for a CR notice |
| ViewNotices.SerializeNotice | app/services/view_notice_service.py:47-73 | the serialised notice has exactly the listed keys, its id, title and message are the notice's, and its creator name repeats the teacher name for a teacher notice and the CR name for a CR notice |
| ViewNotices.Bundle | app/services/view_notice_service.py:134 | one serialised row per retrieved notice, in order, each with the eleven keys and the notice id |
| ViewNotices.ScopeOf | app/services/view_notice_service.py:82-89 | the search has a scope iff the student has a dept and a non-empty series; its section is the normalised one, a letter A, B or C when present |
| ViewNotices.VisibleRows | app/services/view_notice_service.py:91-102 | a notice is visible iff it has an embedding, the student's dept and series, and either no section or the student's section |
| ViewNotices.SimilaritySearch | app/services/view_notice_service.py:76-106 | no scope gives no rows; otherwise the first `top_k` visible rows in distance order |
| ViewNotices.SearchScope | app/services/view_notice_service.py:91-102 | every returned notice is in the student's dept and series and is section-less or of the student's section; a student without a section sees only section-less notices |
| ViewNotices.SearchComplete | app/services/view_notice_service.py:104-106 | with no more than `top_k` visible notices, all of them are returned |
| ViewNotices.ViewNoticesCall | app/services/view_notice_service.py:109-148 | the answer call gets the searched rows and the history followed by three user messages: the profile text, "User query: " and the text, and "Top <k> retrieved notices (JSON): " and the dump of the serialised rows |
| Sections.SectionOf | app/services/view_notice_service.py:35-44 | a section is read iff the stripped, upper-cased text is "A", "B" or "C", and then it is that letter |
| Sections.NullSpellingIsNoSection | app/services/view_notice_service.py:39-41 | blanks, "none" and "null" in any case are no section |
| Sections.SectionOfIdempotent | app/services/view_notice_service.py:35-44 | a read section reads as itself |
| Sections.SectionOfLowerCase | app/services/view_notice_service.py:42-43 | a padded lower-case letter reads as the upper-case letter |
| Sections.ViewNoticeSection | app/services/view_notice_service.py:35-44 | a value that is not a string is no section; a string is read by `SectionOf` |
| Sections.PushSection | app/services/push_notification_service.py:244-251 | an absent or empty value is no section; otherwise it is read by `SectionOf` |
| Sections.DeviceSection | app/services/device_token_service.py:25-32 | a value that is not a string is no section; a string is read by `SectionOf` |
| Sections.ServiceCopiesAgree | app/services/push_notification_service.py:244-251 | the three service copies agree on every optional string |
| Sections.SchemaSection | app/schemas/backend_schemas/notice_schemas.py:6-19 | the schema copy raises "Section must be A, B, C or None" exactly for a text that is neither a null spelling nor a section; otherwise it agrees with `SectionOf` |
| Sections.SchemaRefinesService | app/schemas/backend_schemas/notice_schemas.py:6-19 | whatever the schema accepts it reads as the service copies do, and it accepts every section they read |
| Sections.StrictSection | app/schemas/backend_schemas/result_schemas.py:78-82 | the strict validator accepts only no section or exactly "A", "B" or "C", unchanged |
| Sections.StrictImpliesSchema | app/schemas/backend_schemas/result_schemas.py:78-82 | whatever the strict validator accepts, the lenient schema accepts with the same value |
| Sections.StrictRejectsPadded | app/schemas/student_schemas.py:35-39 | " a " is refused by the strict validator but read as "A" by the lenient one |
| Rows.Filter | app/services/notice_service.py:169-175 | a query filter keeps exactly the rows that pass, in table order |
| Rows.InsertNewest | app/services/notice_service.py:176 | inserting adds exactly the new row and loses none |
| Rows.InsertNewestKeepsOrder | app/services/notice_service.py:176 | inserting into a newest-first list keeps it newest-first |
| Rows.ByNewest | app/services/notice_service.py:112 | `ORDER BY created_at DESC` gives a newest-first permutation of the rows |
| Rows.ByNewestSameRows | app/services/notice_service.py:112 | ordering loses and adds no row |
| Rows.Page | app/services/notice_service.py:113-114 | `.offset(skip).limit(limit)` gives at most `limit` rows starting at `skip`, none past the end |
| Rows.PageIsSlice | app/services/notice_service.py:113-114 | a page holds only rows of the list, and a full page is exactly the slice |
| Rows.PageNewestFirst | app/services/notice_service.py:112-114 | a page of a newest-first list is newest-first |
| Rows.NewestPage | app/services/notice_service.py:110-115 | the listed page is newest-first and holds only table rows |
| Rows.Reversed | app/services/ai_chat_service.py:18-26 | the reversal has the same length and the rows in the opposite order |
| Rows.ReversedNewestFirst | app/services/ai_chat_service.py:18-26 | a newest-first list reversed is oldest-first |
| Rows.ReversedSameRows | app/services/ai_chat_service.py:18-26 | reversal keeps the same rows |
| Rows.NewestKept | app/services/ai_chat_service.py:18-26 | the first `limit` rows by newest cover `min(limit, n)` rows and no row left out is newer than one kept |
| Rows.FirstPageComplete | app/services/notice_service.py:108-116 | a first page with room for every row holds every row |
| Departments.CheckDept | app/schemas/backend_schemas/student_schemas.py:28-38 | the upper-cased value must be in the list, and it is what is kept; otherwise "Department must be one of" and the list |
| Departments.CheckDeptCaseInsensitive | app/schemas/backend_schemas/student_schemas.py:36-38 | the check ignores letter case and accepts its own output |
| Departments.CheckDeptKeepCase | app/schemas/student_schemas.py:15-25 | the accept-but-keep variant accepts the same values as `CheckDept` and keeps the input |
| Departments.ListsDiffer | app/schemas/backend_schemas/student_schemas.py:32-35 | the fourteen-department list of the backend schemas and the twelve-department list of the notice and older schemas disagree: "ECE" is only in the first, "BME" only in the second |
| Departments.CheckSeries | app/schemas/backend_schemas/student_schemas.py:40-46 | a series is accepted iff it is between 19 and 25, unchanged; otherwise "Series must be between 19 and 25" |
| Departments.CheckOptDept | app/schemas/backend_schemas/student_schemas.py:28-38 | an absent dept passes; a given one passes iff `CheckDept` does, upper-cased |
| Departments.CheckOptSeries | app/schemas/backend_schemas/student_schemas.py:40-46 | an absent series passes; a given one iff it is between 19 and 25 |
| Fields.CheckLength | app/schemas/backend_schemas/class_note_schemas.py:10-13 | a text passes iff its length is within the bounds, unchanged |
| Fields.CheckOptLength | app/schemas/backend_schemas/class_note_schemas.py:44-47 | an absent text passes; a given one iff its length is within the bounds |
| Fields.CheckRange | app/schemas/backend_schemas/ct_question_schemas.py:10 | an integer passes iff it is within the bounds, unchanged |
| Fields.CheckOptRange | app/schemas/backend_schemas/ct_question_schemas.py:43 | an absent integer passes; a given one iff it is within the bounds |
| Fields.Required | app/schemas/backend_schemas/ct_question_schemas.py:8-10 | a required field passes iff it is given |
| ProfileSchemas.ValidateStudentBase | app/schemas/backend_schemas/student_schemas.py:18-50 | accepted iff dept, series and section pass their checks; dept is upper-cased, section normalised, everything else kept |
| ProfileSchemas.ValidateStudentBaseIdempotent | app/schemas/backend_schemas/student_schemas.py:18-50 | validating a validated record changes nothing |
| ProfileSchemas.ValidateStudent | app/schemas/backend_schemas/student_schemas.py:57-63 | the full schema also requires full name, dept, series, e-mail and mobile number |
| ProfileSchemas.CheckDesignation | app/schemas/backend_schemas/teacher_schema.py:14-26 | accepted iff the lower-cased designation is one of the four, which is kept |
| ProfileSchemas.ValidateTeacherBase | app/schemas/backend_schemas/teacher_schema.py:5-47 | accepted iff designation, dept and joining year (1990 to 2100) pass; a given designation is kept lower-cased, a given dept upper-cased, and every other field, the profile image included, is kept |
| ProfileSchemas.ValidateTeacher | app/schemas/backend_schemas/teacher_schema.py:50-57 | the full schema also requires all six profile fields |
| ProfileSchemas.CheckCrNo | app/schemas/backend_schemas/cr_schemas.py:11-22 | an absent number passes; a given one iff stripped and lower-cased it is "cr-1", "cr-2" or "cr-3", and that form is kept |
| ProfileSchemas.CheckCrNoIdempotent | app/schemas/backend_schemas/cr_schemas.py:18-22 | a normalised CR number stays as it is |
| ProfileSchemas.ValidateCrBase | app/schemas/backend_schemas/cr_schemas.py:8-22 | the student checks plus the CR number check |
| ProfileSchemas.ValidateCr | app/schemas/backend_schemas/cr_schemas.py:25-35 | the full schema requires the fields and a CR number; an accepted record is exactly what the base schema makes of it: the student fields normalised as ValidateStudentBase does and the CR number one of the three |
| ProfileSchemas.ValidateLoginPassword | app/schemas/backend_schemas/student_schemas.py:53-55 | a login password has at least 3 characters |
| ChatService.LastMessages | app/services/ai_chat_service.py:18-26 | the history window holds only messages of the room, `min(limit, n)` of them, oldest first, and no message of the room left out is newer than one kept |
| ChatService.History | app/services/ai_chat_service.py:29-34 | the history keeps the order and content of the messages; a message is "assistant" exactly when an assistant sent it and "user" otherwise |
| ChatService.HistorySentAsIs | app/ai/llm_client.py:26-32 | the client's role and content clean-up leaves every history message unchanged |
| ChatService.ToLlmHistory | app/services/ai_chat_service.py:29-34 | the loop builds exactly the history value |
| ChatService.ReadGate | app/services/ai_chat_service.py:45-53 | a reply that is not an object or names no known intent falls back to ("tool_query", "fallback"); otherwise the given intent, and the reason or "" |
| ChatService.UnreadableGateRunsTool | app/services/ai_chat_service.py:52-53 | a gate reply that cannot be read sends the turn to the tool |
| ChatService.Route | app/services/ai_chat_service.py:80-112 | general chat and blocked turns get a second call with their prompt over the history and the text; a tool query runs the named tool's handler with the history, or fails when the tool is unknown |
| ChatService.RunToolChat | app/services/ai_chat_service.py:56-112 | with no user the turn answers "Error: No user context provided." without calling the LLM; a tool turn runs the tool with the CR (else the student) as `student`, over the last six messages; it fails only for an unknown tool on a tool query |
| ChatService.RunTeacherChat | app/services/ai_chat_service_teacher.py:5-46 | a teacher turn never answers on its own, and a tool turn passes the teacher as `teacher` |
| ChatService.TeacherTurnMatchesStudentTurn | app/services/ai_chat_service_teacher.py:13-46 | a teacher turn does what a student turn does on the same room, text and gate reply, except for the keyword the caller is passed under |
| ChatService.CrTakesPrecedence | app/services/ai_chat_service.py:71 | when a CR is given the student is ignored |
| DeviceTokens.FindToken | app/services/device_token_service.py:49 | the first row with the token, or -1 exactly when there is none |
| DeviceTokens.NewPlatformLowerCase | app/services/device_token_service.py:72 | a new row's platform is the stripped lower-case platform, "android" when none is given, so it never holds an upper-case letter |
| DeviceTokens.Upserted | app/services/device_token_service.py:35-82 | a known token updates its row in place, an unknown one appends a row; tokens stay unique and other rows are unchanged |
| DeviceTokens.UpsertedRow | app/services/device_token_service.py:55-78 | after the upsert the token's row is active and carries the caller, the audience and the normalised section, seen now |
| DeviceTokens.UpsertPlatform | app/services/device_token_service.py:58 | an updated row takes the platform as given; a new row takes the normalised platform |
| DeviceTokens.Deactivated | app/services/device_token_service.py:85-95 | exactly the token's row becomes inactive; an unknown token changes nothing |
| DeviceTokens.DeactivateIdempotent | app/services/device_token_service.py:85-95 | deactivating twice is deactivating once |
| DeviceTokens.DeviceTokenTable.constructor | app/models/device_token_models.py:16-37 | an empty table with unique tokens |
| DeviceTokens.DeviceTokenTable.Upsert | app/services/device_token_service.py:35-82 | the table becomes `Upserted` of the old one and keeps tokens unique; the returned row is in the table, active, with the stripped token |
| DeviceTokens.DeviceTokenTable.Deactivate | app/services/device_token_service.py:85-95 | the table becomes `Deactivated` of the old one and keeps tokens unique |
| NoticeSchemas.CheckSeriesText | app/schemas/backend_schemas/notice_schemas.py:42-55 | a series text passes iff `int()` reads it as 19 to 25, and is kept as text; otherwise the matching one of the two messages |
| NoticeSchemas.SeriesTextAgrees | app/schemas/backend_schemas/notice_schemas.py:42-55 | on a decimal numeral the text check accepts what the integer check accepts |
| NoticeSchemas.ValidateTeacherCreate | app/schemas/backend_schemas/notice_schemas.py:22-59 | accepted iff title is 1 to 200 characters, message is not empty, dept is in the twelve-entry list, series passes and section normalises; dept is upper-cased and section normalised |
| NoticeSchemas.ValidateTeacherCreateIdempotent | app/schemas/backend_schemas/notice_schemas.py:22-59 | validating a validated notice changes nothing |
| NoticeSchemas.ValidateCrCreate | app/schemas/backend_schemas/notice_schemas.py:61-63 | accepted iff title is 1 to 200 characters and message is not empty; nothing changes |
| NoticeSchemas.ValidateTeacherUpdate | app/schemas/backend_schemas/notice_schemas.py:86-98 | accepted iff a given title is 1 to 200 characters, a given message is not empty and the section normalises |
| NoticeSchemas.UpdateLeavesTargetUnchecked | app/schemas/backend_schemas/notice_schemas.py:90-93 | any dept and series are accepted in an update, as given |
| NoticeSchemas.UpdateNullSectionIsAbsent | app/schemas/backend_schemas/notice_schemas.py:95-98 | a "None" or "null" section in an update reads as no section |
| NoticeSchemas.ValidateCrUpdate | app/schemas/backend_schemas/notice_schemas.py:101-103 | accepted iff a given title is 1 to 200 characters and a given message is not empty |
| Llm.NewClient | app/ai/llm_client.py:12-15 | a client is made iff the API key is set and not empty, and keeps the timeout; otherwise "GROQ_API_KEY missing in env" |
| Llm.SentRole | app/ai/llm_client.py:28-31 | the role sent is always user, assistant or system: a known text role is kept, anything else (missing, not text, unknown) becomes "user" |
| Llm.Sent | app/ai/llm_client.py:27-32 | a message is sent with a known role, its text content as is, and "" for a missing content |
| Llm.SentKeepsKnown | app/ai/llm_client.py:27-32 | a message that already has a known role and text content is sent unchanged |
| Llm.ChatMessages | app/ai/llm_client.py:26-32 | the loop sends the system prompt first and then each message, cleaned, in order; every role sent is known |
| Llm.PayloadKeys | app/ai/llm_client.py:34-42 | the payload has model, messages and temperature, plus max_tokens exactly when a limit is given and response_format exactly in JSON mode |
| Llm.PayloadValues | app/ai/llm_client.py:34-42 | the model is the caller's when truthy, else the default; temperature and the token limit are as given; JSON mode asks for a json_object |
| Llm.Answer | app/ai/llm_client.py:51-55 | a status of 400 or more fails with "Groq <status>: <body>"; otherwise the reply's message content is returned |
| IntentRouter.PromptOffersTools | app/ai/intent_router.py:13-53 | the router prompt contains the list of tool names, so each tool name appears in it |
| IntentRouter.PromptDeterminesList | app/ai/intent_router.py:13-53 | two tool lists that give the same prompt have the same list text |
| IntentRouter.RouteRequest | app/ai/intent_router.py:57-64 | one JSON-mode call at temperature 0 with the router prompt and the user text alone |
| IntentRouter.OptionalText | app/ai/intent_router.py:7-9 | an optional text field passes iff it is missing, null or text, and a value read is that text |
| IntentRouter.ValidateRoute | app/ai/intent_router.py:5-9 | a decision validates iff it is an object with a known intent, text-or-null tool name and reason, and a number in [0, 1] for confidence (0.5 when missing); the fields are read from the object |
| IntentRouter.RouteIntent | app/ai/intent_router.py:66-67 | a reply that is not JSON is an error; otherwise the decision is its validation |
| IntentRouter.RouterHasNoFallback | app/ai/intent_router.py:57-67 | a reply that is not an object or names no known intent is refused, with no fallback |
| IntentRouter.ConfidenceOutOfRangeRefused | app/ai/intent_router.py:8 | a confidence outside [0, 1] is refused whatever the rest says |
| ToolRegistry.Lookup | app/ai/tool_registry.py:15-18 | a name is found iff it is registered, giving its spec; otherwise "Unknown tool: <name>" |
| ToolRegistry.InitToolsTable | app/ai/tools_init.py:9-14 | after `init_tools` the five names are registered, each looking up its own pipeline, and every other entry is unchanged |
| ToolRegistry.InitEmptyRegistry | app/ai/tools_init.py:9-14 | from an empty registry `init_tools` gives exactly the five tools |
| ToolRegistry.Registry.constructor | app/ai/tool_registry.py:10 | the registry starts empty |
| ToolRegistry.Registry.Register | app/ai/tool_registry.py:12-13 | registering sets the spec under its name and leaves every other name as it was |
| ToolRegistry.Registry.Get | app/ai/tool_registry.py:15-18 | a name is found iff it is registered, and the spec found carries that name |
| ToolRegistry.Registry.InitTools | app/ai/tools_init.py:9-14 | the registry becomes `AfterInit` of the old one |
| ResultSchemas.ValidateMarks | app/schemas/backend_schemas/result_schemas.py:15-26 | a mark passes iff, stripped and upper-cased, it is "A" or all digits, and that form is kept; otherwise "marks must be a number or 'A' for absent" |
| ResultSchemas.ValidateMarksIdempotent | app/schemas/backend_schemas/result_schemas.py:15-26 | a cleaned mark stays as it is |
| ResultSchemas.CleanMarkFixed | app/schemas/backend_schemas/result_schemas.py:18 | stripping and upper-casing leave a valid mark unchanged |
| ResultSchemas.ValidateEntry | app/schemas/backend_schemas/result_schemas.py:11-26 | an entry passes iff its roll number is not empty and its mark passes, and keeps the cleaned mark |
| ResultSchemas.ValidateEntries | app/schemas/backend_schemas/result_schemas.py:104 | a list passes iff every entry does, entry by entry |
| ResultSchemas.ValidateBatch | app/schemas/backend_schemas/result_schemas.py:103-111 | a batch passes iff it is not empty and every entry passes; an empty one is "entries cannot be empty" |
| ResultSchemas.ValidateSheet | app/schemas/backend_schemas/result_schemas.py:45-82 | a sheet passes iff the CT number (when given) is at least 1, the code, name and dept lengths are in bounds, the dept is in the fourteen-entry list, the section is absent or exactly A, B or C, and the series is 19 to 25; only the dept is changed, to upper case |
| MaterialSchemas.OfKind | app/schemas/backend_schemas/class_note_schemas.py:8-13 | a body keeps the three shared fields and exactly the fields its kind has; the others are dropped |
| MaterialSchemas.CheckBounds | app/schemas/backend_schemas/class_note_schemas.py:10-13 | a body passes iff every given field is within its length or range bounds |
| MaterialSchemas.ValidateCreate | app/schemas/backend_schemas/class_note_schemas.py:8-18 | a create body passes iff every field of its kind is given and in bounds; the course code is upper-cased |
| MaterialSchemas.CreateKeepsCodeLength | app/schemas/backend_schemas/class_note_schemas.py:15-18 | upper-casing keeps the length of the course code |
| MaterialSchemas.ValidateCreateIdempotent | app/schemas/backend_schemas/class_note_schemas.py:8-18 | validating a validated body changes nothing |
| MaterialSchemas.ValidateUpdate | app/schemas/backend_schemas/class_note_schemas.py:42-47 | an update body passes iff every given field of its kind is in bounds, and nothing is upper-cased |
| MaterialSchemas.CreateImpliesUpdate | app/schemas/backend_schemas/class_note_schemas.py:42-47 | a body valid for create is valid for update, and differs only in the upper-cased course code |
| LegacySchemas.ValidateStudentBase | app/schemas/student_schemas.py:5-39 | accepted iff a given dept is in the twelve-entry list (any case), a given series is 19 to 25, and a given section is exactly A, B or C; nothing is changed |
| LegacySchemas.ValidateStudent | app/schemas/student_schemas.py:46-54 | the full schema also requires the neura id and the seven profile fields |
| LegacySchemas.RequiredKey | app/schemas/teacher_schema.py:10-13 | an `Optional[str]` field with no default passes iff its key is present, null or text, and is kept |
| LegacySchemas.ValidateTeacher | app/schemas/teacher_schema.py:5-45 | accepted iff the six required fields are given, the mobile_no and profile_image keys are present (null allowed), the designation is one of the four and the dept in the twelve-entry list (any case); nothing is changed |
| LegacySchemas.ValidateCr | app/schemas/cr_schemas.py:6-9 | the older CR schema refuses a given neura_id, requires neura_cr_id, cr_no and the student fields, checks them as the older student schema does and changes nothing; the CR number is not checked |
| LegacySchemas.LegacyCrNoUnchecked | app/schemas/cr_schemas.py:9 | the older schema accepts a CR number such as "cr-9" that the backend schema refuses |
| LegacySchemas.LegacyKeepsCase | app/schemas/student_schemas.py:15-25 | the older schema keeps the dept as typed where the backend schema upper-cases it |
| Push.SenderRoleText | app/services/push_notification_service.py:254-262 | no role gives ""; an enum role gives its stripped lower-case value; anything else gives the text after its last dot |
| Push.StoredRoleNames | app/services/push_notification_service.py:254-262 | the two stored sender roles read as "teacher" and "cr" |
| Push.TokensOf | app/services/push_notification_service.py:276-282 | the tokens of exactly the active Android rows of the owner kind in the notice's dept and series, and of its section when it has one |
| Push.Dedup | app/services/push_notification_service.py:312 | `dict.fromkeys` keeps every token once and loses none |
| Push.DedupFirstOrder | app/services/push_notification_service.py:312 | the kept tokens are in the order of their first occurrence |
| Push.RecipientsFor | app/services/push_notification_service.py:265-312 | the recipients are distinct, and are exactly the tokens of matching rows whose owner the sender's role reaches |
| Push.TargetTokens | app/services/push_notification_service.py:272-312 | for a normalised section, the tokens are distinct and are exactly those of matching rows whose owner the role reaches: students and CRs for "teacher", students for "cr", nobody for any other role |
| Push.Recipients | app/services/push_notification_service.py:265-312 | a teacher's notice reaches matching students and CRs, a CR's only matching students, and each token once |
| Push.SectionlessNoticeReachesSeries | app/services/push_notification_service.py:283-284 | a notice without a section reaches every matching student of the dept and series, whatever their section |
| Push.NoneSpellingNoSection | app/services/push_notification_service.py:244-251 | a stored section "None" is read as no section |
| Push.AsWrittenSectionlessNoticePushed | app/services/push_notification_service.py:244-251 | a sectionless teacher notice stored as "None" is pushed to the same devices as one stored without a section |
| Push.ReRegisteredPlatformMutes | app/services/device_token_service.py:58 | a token re-registered with a platform other than "android" is no longer pushed to |
| Push.Shorten | app/services/push_notification_service.py:315-319 | a stripped text that fits is kept; a longer one is cut to the limit, ending in an ellipsis after a prefix of the text |
| Push.ShortenIdempotent | app/services/push_notification_service.py:315-319 | shortening twice is shortening once |
| Push.PushTitle | app/services/push_notification_service.py:436-437 | the title is never empty; it is the notice title, or "New Notice" for an empty title, and with a sender it is "<sender>: " followed by exactly that text |
| Push.NoticePush | app/services/push_notification_service.py:431-448 | the body is the message shortened to 200 characters (so at most 200); the title is the push title for the sender and the title shortened to 80 characters; the data entries notice_title, notice_description and sender_name carry those same texts |
| Push.NoticePushKeys | app/services/push_notification_service.py:440-451 | a push carries exactly the ten data keys the app reads |
| Push.SenderName | app/services/push_notification_service.py:322-351 | a teacher notice names the stripped teacher name or "Teacher"; a CR notice names the CR's stripped name, else "CR (<roll>)", else "CR"; no name for a role without its creator id |
| Push.FcmOutcome | app/services/push_notification_service.py:383-414 | a 2xx reply is success; otherwise a reply body mentioning an unregistered token is False, and anything else is None |
| Push.DeactivateOnlyUnregistered | app/services/push_notification_service.py:389-405 | only a failing reply can deactivate a token, and an auth failure without the unregistered wording never does |
| Push.DeactivatedAll | app/services/device_token_service.py:85-95 | deactivating several tokens keeps the table's size and its unique tokens |
| Push.DeactivatedAllRows | app/services/push_notification_service.py:458-463 | exactly the rows of the deactivated tokens become inactive |
| Push.DeactivateEach | app/services/push_notification_service.py:455-463 | deactivating the failed tokens one after another leaves the table valid and equal to the old table with all of them deactivated |
| Push.SendNoticePush | app/services/push_notification_service.py:417-465 | every recipient is sent the notice's push, and the table becomes the old one with the tokens whose reply was False deactivated |
| Push.UnescapeNewlines | app/services/push_notification_service.py:96-97 | no literal backslash-n is left, the key never grows, and a key without one is unchanged |
| Push.UnescapeSplice | app/services/push_notification_service.py:97 | each literal backslash-n becomes one newline, and the text on either side is unescaped on its own |
| Push.StripQuotes | app/services/push_notification_service.py:94 | the result is the slice between the leading and the trailing quotes, and neither starts nor ends with a quote |
| Push.NormalizedKey | app/services/push_notification_service.py:94-97 | the stripped key, with its literal backslash-n pairs replaced when it holds no real newline, and left as it is when it does |
| Push.NormalizeServiceAccount | app/services/push_notification_service.py:81-100 | only a text private_key changes, to its normalised form; every other entry and anything not a dictionary is kept |
| ResultService.TeacherSheet | app/services/result_service.py:8-19 | a sheet is found iff one with that id belongs to the teacher, and it is that sheet; otherwise 404 "Result sheet not found" |
| ResultService.OtherTeachersSheetHidden | app/services/result_service.py:8-19 | another teacher's sheet is reported as not found |
| ResultService.CtPart | app/services/result_service.py:38 | the CT part always starts "CT-" and has a fourth character |
| ResultService.CtPartInjective | app/services/result_service.py:38 | different CT numbers, or a number and none, give different CT parts |
| ResultService.IntToStringInjective | app/services/result_service.py:41-44 | different series give different series texts |
| ResultService.NatToStringInjective | app/services/result_service.py:41-44 | different natural numbers have different decimal texts |
| ResultService.SectionSuffix | app/services/result_service.py:42-44 | no suffix for a missing or empty section; otherwise "-" and the stripped upper-case section, which is not blank |
| ResultService.GroupPart | app/services/result_service.py:40-44 | the group has no lower-case letter and opens with the stripped upper-case dept and a hyphen |
| ResultService.RollText | app/services/result_service.py:46-47 | a missing or empty roll gives ""; otherwise the stripped roll |
| ResultService.RangePart | app/services/result_service.py:48 | the range is "-" exactly when both rolls are blank; otherwise "<start>-<end>" |
| ResultService.RangeOnlyStart | app/services/result_service.py:48 | a start without an end gives "<start>-" |
| ResultService.Title | app/services/result_service.py:36-50 | the title opens with the stripped upper-case course code and " CT-", and ends with " \| " and the roll range |
| ResultService.TitleOfParts | app/services/result_service.py:36-50 | the title is the course code, the CT part, the group and the range, joined by " " and " \| " |
| ResultService.GroupPartClean | app/services/result_service.py:40-44 | for clean values the group is "<dept>-<series>" and "-<section>" when there is one |
| ResultService.RangePartClean | app/services/result_service.py:48 | for clean rolls the range is "<start>-<end>" |
| ResultService.TitleFormat | app/services/result_service.py:29-30 | for clean values the title has the documented format |
| ResultService.TitleBare | app/services/result_service.py:29-30 | with no CT number, section or rolls the title is "<code> CT-- \| <dept>-<series> \| -" |
| ResultService.DocumentedTitles | app/services/result_service.py:32-34 | the two documented examples come out exactly as documented |
| SheetRouter.NewSheet | app/api/v1/endpoints/result_sheet/sheet_generator_router.py:56-67 | a new sheet carries the generated title and the teacher as creator |
| SheetRouter.CreateAsWritten | app/api/v1/endpoints/result_sheet/sheet_generator_router.py:31-72 | as written: a taken group is 409; a sheet with no section fails on the NOT NULL section column; otherwise the new sheet |
| SheetRouter.SectionlessSheetNeverStored | app/models/result_sheet_models.py:39 | as written, a request without a section can never store a sheet |
| SheetRouter.CreateSheet | app/api/v1/endpoints/result_sheet/sheet_generator_router.py:31-72 | with the section required: no section is 422, a taken group is 409, and otherwise the new sheet is stored with its group |
| SheetRouter.CreateSheetAgrees | app/api/v1/endpoints/result_sheet/sheet_generator_router.py:31-72 | with a section the corrected create does what the code as written does |
| SheetRouter.CreateKeepsGroupsUnique | app/models/result_sheet_models.py:58-68 | a created sheet keeps the teacher, course, CT and group of every sheet unique |
| SheetRouter.Stored | app/api/v1/endpoints/result_sheet/sheet_generator_router.py:87-94 | an entry is stored under the sheet with its roll and its mark stripped and upper-cased |
| SheetRouter.KeyIndex | app/models/result_entry_models.py:39-42 | the first entry with the same sheet and roll, or -1 exactly when there is none |
| SheetRouter.UpsertEntry | app/api/v1/endpoints/result_sheet/sheet_generator_router.py:96-100 | after an upsert the entry is present, entries of other keys are kept, and there is nothing else; keys stay unique |
| SheetRouter.UpsertAllUnique | app/api/v1/endpoints/result_sheet/sheet_generator_router.py:96-100 | a batch upsert keeps sheet and roll unique |
| SheetRouter.UpsertAll | app/api/v1/endpoints/result_sheet/sheet_generator_router.py:96-100 | a batch upsert never shrinks the table, grows it by at most the batch size, and always stores the batch's last entry |
| SheetRouter.UpsertAllStores | app/api/v1/endpoints/result_sheet/sheet_generator_router.py:87-100 | after a batch with distinct rolls every entry of the batch is stored |
| SheetRouter.UpsertAllKeeps | app/api/v1/endpoints/result_sheet/sheet_generator_router.py:96-100 | entries not in the batch are kept |
| SheetRouter.UpsertAllOnly | app/api/v1/endpoints/result_sheet/sheet_generator_router.py:96-100 | every entry after the batch was there before or is one of the batch |
| SheetRouter.UpsertAllEffect | app/api/v1/endpoints/result_sheet/sheet_generator_router.py:87-100 | a batch upsert keeps keys unique, stores the batch, keeps the rest and adds nothing else |
| SheetRouter.BatchUpsert | app/api/v1/endpoints/result_sheet/sheet_generator_router.py:76-109 | not the teacher's sheet is 404; a batch with a repeated roll is refused as a whole; otherwise the entries are upserted and the count is the batch size |
| SheetRouter.BatchStoresMarks | app/api/v1/endpoints/result_sheet/sheet_generator_router.py:87-100 | after a batch, looking up a roll of the batch gives its cleaned mark |
| SheetRouter.EntriesOf | app/models/result_sheet_models.py:48-54 | exactly the entries of the sheet |
| SheetRouter.SheetWithEntries | app/api/v1/endpoints/result_sheet/sheet_generator_router.py:113-132 | found iff the sheet belongs to the teacher; then it comes with exactly its entries; otherwise 404 |
| SheetRouter.History | app/api/v1/endpoints/result_sheet/sheet_generator_router.py:138-148 | the history holds exactly the teacher's sheets, newest first |
| SheetRouter.ResultTables.constructor | app/models/result_sheet_models.py:19-68 | empty tables, with unique groups and entry keys |
| SheetRouter.ResultTables.Create | app/api/v1/endpoints/result_sheet/sheet_generator_router.py:31-72 | the result is the corrected `CreateSheet` (a missing section is 422 before the duplicate check, where the code as written reaches the insert and fails on the NOT NULL column; see Findings); a created sheet is appended, and the groups stay unique |
| SheetRouter.ResultTables.SaveBatch | app/api/v1/endpoints/result_sheet/sheet_generator_router.py:76-109 | the entries become the batch upsert, or stay as they were when it fails; sheets are untouched and keys stay unique |
| ResultRecords.FindEntry | app/services/check_marks_service.py:158-162 | the entry of the sheet with the roll when there is one, and none exactly when no entry matches both |
| Auth.AccessClaims | app/services/dependencies.py:27-39 | the signed claims are the given ones plus "iat" (now) and "exp" (now plus the delta, or the default 30 minutes when the delta is missing or zero); every other claim is kept |
| Auth.BearerToken | app/services/dependencies.py:49-58 | a token is read iff there are credentials with a scheme that is "bearer" in any case and a non-empty token; otherwise 401 "Could not validate credentials" |
| Auth.PyEqualsIntUnique | app/services/dependencies.py:86-88 | a token version claim equals at most one stored version |
| Auth.FindNeura | app/services/dependencies.py:82 | the first row whose neura id equals the claim, or -1 exactly when none does |
| Auth.AccessUser | app/services/dependencies.py:72-91 | an undecodable token is 401; a token that is not an access token is "Access token required"; a user is found iff the id claim is truthy, names a row, and the version claim equals that row's version |
| Auth.CurrentUser | app/services/dependencies.py:61-91 | the bearer check comes first, then the access-token checks; a user found is a row of the table |
| Auth.StaleVersionRevoked | app/services/dependencies.py:86-88 | an access token whose version differs from the row's is "Token has been revoked" |
| Auth.IssuedClaimsAdmitted | app/services/dependencies.py:78-88 | the claims issued at login or refresh are accepted for the account they were issued to |
| Auth.SignedClaimsAdmitted | app/services/dependencies.py:27-39 | adding the expiry and issue time keeps issued claims accepted |
| Auth.BearerAccepted | app/services/dependencies.py:61-91 | a "Bearer" header with a token whose claims admit a row, the first with its id, resolves to that row |
| Auth.Count | app/services/profile_set_up_dependencies.py:25 | the count of a character is at most the length and 0 when it does not occur |
| Auth.FindSetup | app/services/profile_set_up_dependencies.py:46 | the first row holding the setup token, or -1 exactly when none does |
| Auth.ProfileSetupUser | app/services/profile_set_up_dependencies.py:12-50 | a token with exactly two dots goes through the access-token checks; any other is looked up as a setup token, and an unknown one is "Invalid setup token" |
| Auth.SetupTokenAccepted | app/services/profile_set_up_dependencies.py:45-50 | a dot-free token stored as a setup token resolves to its row |
| Accounts.Stars | app/api/v1/endpoints/auth/teacher_auth_router.py:52 | a run of exactly n stars |
| Accounts.MaskOtp | app/api/v1/endpoints/auth/teacher_auth_router.py:49-52 | a code shorter than two characters masks to "**"; otherwise every character but the last is a star |
| Accounts.MaskShowsOnlyLengthAndLast | app/api/v1/endpoints/auth/teacher_auth_router.py:49-52 | two codes of the same length and last digit mask alike |
| Accounts.Sanitized | app/api/v1/endpoints/auth/teacher_auth_router.py:55-64 | the sanitized store has the same emails, each with its masked code and its expiry |
| Accounts.SanitizedHidesOtps | app/api/v1/endpoints/auth/teacher_auth_router.py:55-64 | no stored digit code appears unmasked in the sanitized store |
| Accounts.Cleaned | app/api/v1/endpoints/auth/teacher_auth_router.py:67-76 | the cleanup keeps exactly the entries that have not expired, unchanged |
| Accounts.CleanedSettles | app/api/v1/endpoints/auth/teacher_auth_router.py:67-76 | a second cleanup at an earlier or equal time removes nothing more |
| Accounts.FindBy | app/api/v1/endpoints/auth/teacher_auth_router.py:103 | the first row whose column equals the value, or -1 exactly when none does |
| Accounts.FindOther | app/api/v1/endpoints/auth/teacher_auth_router.py:195-199 | a row other than the caller's that holds the value, or -1 exactly when there is none |
| Accounts.FindRefresh | app/api/v1/endpoints/auth/teacher_auth_router.py:319 | the first row holding the refresh id, or -1 exactly when none does |
| Accounts.FindNeuraOfRow | app/models/cr_models.py:22 | with unique neura ids a row's own id finds that row |
| Accounts.FindNeuraKept | app/api/v1/endpoints/auth/teacher_auth_router.py:93 | changing a row but not its neura id changes no neura-id lookup |
| Accounts.FindBySameColumn | app/api/v1/endpoints/auth/teacher_auth_router.py:152 | two tables that agree on a column give the same lookups on it |
| Accounts.FindByKept | app/api/v1/endpoints/auth/teacher_auth_router.py:175 | changing a row but not the looked-up column changes no lookup |
| Accounts.TokenLogin | app/api/v1/endpoints/auth/teacher_auth_router.py:79-96 | an unknown id is "Neura Teacher ID invalid" (or the CR wording), a password that does not verify is "Password invalid", both leaving the table alone; otherwise only that row gets the new setup token, which is returned |
| Accounts.StudentLoginAsWritten | app/api/v1/endpoints/students_router.py:59-69 | as written: an unknown id is "Neura ID invalid", and the login succeeds iff the stored password equals the submitted one as plain text |
| Accounts.StudentLogin | app/api/v1/endpoints/students_router.py:59-69 | corrected: the login succeeds iff the submitted password verifies against the stored hash |
| Accounts.Forget | app/api/v1/endpoints/auth/teacher_auth_router.py:99-147 | an unknown email is "Email not found" and changes nothing; otherwise the store is cleaned and the four-digit code stored for ten minutes, replacing any earlier one; a failed mail is a 500 that keeps the code; rows never change |
| Accounts.Reset | app/api/v1/endpoints/auth/teacher_auth_router.py:150-179 | in order: unknown email, missing or different code ("Invalid OTP"), expired code (deleted), differing confirmation (code kept); on success only the first row with the email gets the new password's hash and the code is deleted |
| Accounts.SingleReadingNeverExpired | app/api/v1/endpoints/auth/teacher_auth_router.py:156-168 | with one clock reading the "OTP expired" branch cannot be taken, because the cleanup already removed the entry |
| Accounts.ResetIsSingleUse | app/api/v1/endpoints/auth/teacher_auth_router.py:177 | a code that reset a password is refused if used again |
| Accounts.RetryAfterMismatch | app/api/v1/endpoints/auth/teacher_auth_router.py:172-173 | after a mistyped confirmation the same code, with a matching confirmation and within the expiry, resets the password |
| Accounts.ForgetThenReset | app/api/v1/endpoints/auth/teacher_auth_router.py:99-179 | the code stored by a successful request, used within ten minutes with a matching confirmation, resets exactly that account's password and is then gone |
| Accounts.FieldSet | app/api/v1/endpoints/auth/teacher_auth_router.py:217-225 | the set of the listed fields |
| Accounts.Overlay | app/api/v1/endpoints/auth/teacher_auth_router.py:227-230 | every listed field the request gives (not None) is copied; every other field is kept |
| Accounts.OverlayStep | app/api/v1/endpoints/auth/teacher_auth_router.py:227-230 | copying one more field changes at most that field |
| Accounts.FirstClash | app/api/v1/endpoints/auth/teacher_auth_router.py:193-215 | the first field, in check order, whose new truthy value another row holds, or none exactly when no field clashes |
| Accounts.SetUp | app/api/v1/endpoints/auth/teacher_auth_router.py:217-253 | the set-up row has every given updatable field copied and the rest kept, no setup token, and a new refresh token valid for thirty days; id, neura id, password and version are untouched |
| Accounts.ProfileSetup | app/api/v1/endpoints/auth/teacher_auth_router.py:187-280 | a clash is refused with its own 409 and nothing changes; otherwise the row is set up, or the commit fails with "Unique constraint failed" when a unique column would repeat; a success keeps unique columns unique |
| Accounts.SetupSucceeded | app/api/v1/endpoints/auth/teacher_auth_router.py:256-280 | a successful setup returns the new access claims and refresh token and stores the set-up row |
| Accounts.SetupTokenWorks | app/api/v1/endpoints/auth/teacher_auth_router.py:237-244 | the access token a setup returns is accepted by the current-user dependency for the same row |
| Accounts.StudentSetup | app/api/v1/endpoints/students_router.py:171-216 | the row is found by the request's neura id ("Student not found" otherwise); the given updatable fields are copied and nothing else changes; a repeated unique column fails the commit and changes nothing |
| Accounts.RefreshCheck | app/api/v1/endpoints/auth/teacher_auth_router.py:290-339 | in order: missing header, an unexpired access token (400), an invalid one, an unknown or unverified refresh token, an expired refresh token, a different user, a different version; otherwise the row with the refresh id |
| Accounts.Refresh | app/api/v1/endpoints/auth/teacher_auth_router.py:283-369 | a failed check changes nothing; a teacher refresh issues a new access token and rotates the refresh token; a CR refresh issues a new access token and changes nothing |
| Accounts.RotatedRefreshIsSingleUse | app/api/v1/endpoints/auth/teacher_auth_router.py:351-359 | a teacher's rotated refresh token cannot be used again |
| Accounts.CrRefreshRepeats | app/api/v1/endpoints/cr_router.py:286-351 | a CR's refresh token keeps working, because the CR refresh does not rotate it |
| Accounts.LoggedOut | app/api/v1/endpoints/auth/teacher_auth_router.py:377-380 | logout moves the version on by one and clears the refresh token, changing nothing else |
| Accounts.Logout | app/api/v1/endpoints/auth/teacher_auth_router.py:372-382 | the current user, as the dependency resolves it, is logged out; a refused token changes nothing |
| Accounts.LogoutRevokesAccess | app/api/v1/endpoints/auth/teacher_auth_router.py:377 | after logout the access token used for it is "Token has been revoked" |
| Accounts.LogoutEndsRefresh | app/api/v1/endpoints/auth/teacher_auth_router.py:378-380 | after logout the refresh token the row held is refused |
| Accounts.UpdatePassword | app/api/v1/endpoints/update_password/update_password.py:41-68 | the current user, as the dependency resolves it, has the password change applied; a refused token or a failed change leaves the table alone |
| Accounts.ResetLocksStudentOut | app/api/v1/endpoints/students_router.py:66 | as written, a student who reset the password cannot log in with the new one, because the reset stores its hash and the login compares plain text |
| Accounts.ResetThenLogin | app/api/v1/endpoints/students_router.py:161-162 | with the password verified against the hash, the new password logs a student, a teacher or a CR in after a reset |
| Accounts.CopyGiven | app/api/v1/endpoints/auth/teacher_auth_router.py:227-230 | the `setattr` loop produces exactly the overlay of the given fields |
| Accounts.UniqueKept | app/models/cr_models.py:13-29 | changing a row but not its neura id or profile keeps the unique columns unique |
| Accounts.AccountRouter.constructor | app/api/v1/endpoints/auth/teacher_auth_router.py:44 | a router over a table with unique columns and an empty OTP store |
| Accounts.AccountRouter.CleanupExpired | app/api/v1/endpoints/auth/teacher_auth_router.py:67-76 | the loop deletes exactly the expired entries, and rows are untouched |
| Accounts.AccountRouter.Login | app/api/v1/endpoints/auth/teacher_auth_router.py:79-96 | the state and reply are those of `TokenLogin`, and unique columns stay unique |
| Accounts.AccountRouter.ForgetPassword | app/api/v1/endpoints/auth/teacher_auth_router.py:99-147 | the state and reply are those of `Forget` |
| Accounts.AccountRouter.ResetPassword | app/api/v1/endpoints/auth/teacher_auth_router.py:150-179 | the state and reply are those of `Reset` |
| Accounts.AccountRouter.ProfileSetupRoute | app/api/v1/endpoints/auth/teacher_auth_router.py:187-192 | the dependency's error is the reply; otherwise the state and reply are those of `ProfileSetup` for the row it resolved |
| Accounts.AccountRouter.SetUpRow | app/api/v1/endpoints/auth/teacher_auth_router.py:193-280 | the state and reply are those of `ProfileSetup` |
| Accounts.AccountRouter.StudentProfileSetup | app/api/v1/endpoints/students_router.py:171-216 | the state and reply are those of `StudentSetup` |
| Accounts.AccountRouter.RefreshRoute | app/api/v1/endpoints/auth/teacher_auth_router.py:283-369 | the state and reply are those of `Refresh` |
| Accounts.AccountRouter.LogoutRoute | app/api/v1/endpoints/auth/teacher_auth_router.py:372-382 | the state and reply are those of `Logout` |
| Accounts.AccountRouter.UpdatePasswordRoute | app/api/v1/endpoints/update_password/update_password.py:41-68 | the state and reply are those of `UpdatePassword` |
| PasswordUpdate.CheckLength | app/schemas/backend_schemas/password_update_schemas.py:5 | a password passes iff it has 6 to 128 characters, unchanged |
| PasswordUpdate.ValidatePasswordUpdate | app/schemas/backend_schemas/password_update_schemas.py:4-7 | a request passes iff each of the three passwords has 6 to 128 characters |
| PasswordUpdate.ChangePassword | app/api/v1/endpoints/update_password/update_password.py:23-38 | in order: differing new passwords, no stored password, a current password that does not verify; otherwise only the password changes, to the hash of the new one |
| PasswordUpdate.ChangeKeepsSessions | app/api/v1/endpoints/update_password/update_password.py:36 | a change keeps the token version, refresh and setup tokens, so a session's access token is still accepted |

## Left out

- Network and external services are parameters. These are the language model's HTTP call, the embedding service, FCM sending and Google credential refresh, SMTP/Resend, and JWT signing and expiry.
- Password hashing and verification are opaque functions. app/utils/hashing.py is not part of this model.
- MarksheetService.CtRange: a JSON `true` or `false` among the requested CT numbers is printed as 1 or 0, where Python's `str` prints "True" or "False"; it sorts by the same value in both.
- The clock, random OTP digits, `secrets` tokens and the ISO text of expiry times are inputs.
- Concurrency and caching are left out: the asyncio gather and semaphore, the event-loop dispatch of `send_notice_push_by_id`, and the lock-protected FCM access-token cache.
- The FCM request envelope and the HTTP status handling around it are left out. The model covers only the classification of the result and the deactivation rule. For error kinds other than the listed ones, the code returns `None`, not the value its comment mentions; the model follows the code.
- Floating point is left out: the mark-sheet average and `_fmt_num`, mean pooling and normalising of embeddings, and vector distance. The search order is a given permutation of the candidate rows.
- PDF drawing is left out: ReportLab canvases, fonts, images, coordinates, the y-cutoff loop and clipping by cell height. The module-level demo run and the random data generator of the mark-sheet generator are also left out.
- Prompt text (`sys_prompts`) is left out. It is instructions to an external model; the model only takes the prompt constants as given names.
- JSON text parsing is a decoder parameter, and the model starts from the decoded value. Pydantic's lax coercions and its order of reporting errors are not modelled: a refused input is an error, and the model does not claim which message comes first.
- Python's `int()` accepts underscores between digits. The model's integer parsing does not.
- Syntax checks of Pydantic's `EmailStr` and `HttpUrl` are left out. Such a value is kept as given text.
- A material patch that sends an explicit JSON `null` is treated like an absent field.
- Text functions classify letters and digits, and map case, for ASCII only. Unicode case mapping and Unicode digits or letters are not modelled. Whitespace (`strip`, `split`, `isspace`) and the line boundaries of `splitlines` follow Python's full sets.
- The order in which the database returns rows of an unordered query is a given order of the table.
- Materials are not ordered by anything other than the table order. The result-sheet entries are not sorted by roll number.
- Database constraints are carried only where the code relies on them: one sheet per teacher, group, course and CT, and one entry per sheet and roll. Other NOT NULL and foreign-key constraints are not modelled; the sectionless sheet among the Findings is the exception. A race between two inserts that trips a unique constraint is the same unique-violation error path.
- app/models/notice_models.py is stale: it declares the section NOT NULL and has no title or creator columns. The notice record follows the services that use it instead.
- app/models/lecture_slide_models.py is stale too: it has an integer id, no drive_url, uploaded_by_cr_id or embedding column, and it imports app.core.database where the current material models import app.db.database. The lecture-slide record follows the router that builds it (app/api/v1/endpoints/material_upload/cr_lecture_slide_router.py), and the search treats the lecture-slide table as having an embedding column. Only the semester-question model, which is current, lacks one.
- app/models/teacher_models.py does not declare the refresh-token and token-version fields that the teacher router uses. The model gives every account those fields.
- A neura id that is not unique is not modelled apart: lookups take the first matching row.
- The student password-update endpoint is modelled, but the student login issues no token. In practice nothing can call the endpoint.
- update_password.py imports app/schemas/password_update_schemas.py, which is not part of this model. The password-change schema is modelled from the backend schema it mirrors.
- Some routers import schema modules at paths that are not part of this model. The CT-question router imports app/schemas/ct_question_schemas.py, and the CR and student routers import app/schemas/utils_schema.py. The files of the same names under app/schemas/backend_schemas/ are modelled instead.
- The CR router (app/api/v1/endpoints/cr_router.py:17) imports `CRSchema` from the older app/schemas/cr_schemas.py, which requires neura_cr_id, leaves cr_no unchecked and applies the older student rules (twelve departments, strict section). That schema is `LegacySchemas.ValidateCr`. `ProfileSchemas.ValidateCr` models the backend `CRSchema`, which no router imports. The same import line also names `CRProfileSetupMeResponse`, which the older file does not define; the model does not capture that import failure.
- `route_intent` calls the language model's `complete` without `await`. The model takes the reply as given and does not model that coroutine slip.
- `repr` of tool names in the router prompt is Python's quoting of plain ASCII names. Names with quotes or escapes are not modelled.
- CoverService.FieldOr: decoded cover replies are typed as objects whose values are text or null. A reply value that is a number, a boolean, a list or an object is not modelled. The code copies such a truthy value through `_merge`, lets it pass the blank check through `str()`, and then fails: `_safe_filename` calls `.strip()` on it (app/services/cover_gen_service.py:240-242). A decoded reply that is a list, not an object, also fails, at `type_data.get` (line 177). The model does not capture these crash paths.
- CoverService.Merge: copies text values only, for the reason given under FieldOr; the non-text values `_merge` copies through, and the failures they cause later, are not modelled.
- NoticeService.NoticeTable.CreateByTeacher: the table stores the corrected `TeacherNotice`, so a section-less teacher notice keeps no section. The code as written stores the text "None"; that behaviour is modelled only by `TeacherNoticeAsWritten` and the lemmas beside it (see Findings).
- SheetRouter.ResultTables.Create: the table runs the corrected `CreateSheet`, which refuses a missing section with 422 before the duplicate check. The code as written fails at the insert instead; that path is modelled only by `CreateAsWritten` and `SectionlessSheetNeverStored` (see Findings).
- MarksheetService.Collect: a generated sheet's reply is the corrected `SuccessText`, with the real emoji. The code as written sends the mojibake text of app/services/generate_marksheet_service.py:172-175; that text is `SuccessTextAsWritten`, and the lemma `SuccessTextMojibake` shows how it differs (see Findings).
- MarksheetService.CollectSheets: returns the corrected `SuccessText` on success, for the reason given under Collect.
- MarksheetService.Respond: a generated sheet carries the corrected `SuccessText`, for the reason given under Collect.
- MarksheetService.MarksheetSpec: specifies the corrected `SuccessText` for a generated sheet, for the reason given under Collect.
- MarksheetService.RunMarksheetPipeline: its reply for a generated sheet is the corrected `SuccessText`, for the reason given under Collect.
- CoverLayout.ResolvePath: `str(Path(p))` is a parameter. The model does not spell out how Python normalises a path's text.
- Routers that only delegate are left out: the chat routers, the notice routers and the push router. Bootstrap code, migrations and seeding scripts are also left out.
- Broken files are left out: those that reference names not defined in the repository (app/crud, auth_service.py, chat_service.py, and the tools/find_materials.py wrapper), and the superseded cr_routers.py stub.

## Findings

| source | as written | input that shows it | evidently intended | confidence | as-written member | corrected member |
|---|---|---|---|---|---|---|
| app/services/generate_marksheet_service.py:172-175 | the success reply's two emoji are written as mojibake, their UTF-8 bytes read as cp1252 | any successful mark-sheet generation: the reply begins "ðŸŽ‰" instead of the party-popper emoji, and the download line begins "ðŸ“„" instead of the page emoji | the reply shows the two emoji | not executed | MarksheetService.SuccessTextMojibake | MarksheetService.SuccessText |
| app/services/notice_service.py:34 | a teacher notice without a section stores `str(None)`, the text "None", as its section | a teacher creates a notice with no section; view_notice_service.py:99-102 keeps section-less notices by `sec IS NULL`, so no student of the dept and series ever sees it | a section-less teacher notice is stored with a null section and reaches every student of its dept and series | not executed | NoticeService.SectionlessTeacherNoticeHidden | NoticeService.SectionlessTeacherNoticeVisible |
| app/api/v1/endpoints/result_sheet/sheet_generator_router.py:63 | a sheet created without a section passes the duplicate check and is inserted with a null section, which app/models/result_sheet_models.py:39 declares NOT NULL | a create request with no section: the insert fails and the sheet is never stored | the section is required before the insert (or the column allows null) and a stored sheet is returned | not executed | SheetRouter.SectionlessSheetNeverStored | SheetRouter.CreateSheetAgrees |
| app/api/v1/endpoints/students_router.py:66 | student login compares the stored password with the submitted one as plain text, while the OTP reset at line 161 stores a hash | a student resets with new password "secret1" and then logs in with "secret1": the stored hash never equals "secret1", so login fails | login verifies the password against the stored hash, as the teacher and CR logins do | not executed | Accounts.ResetLocksStudentOut | Accounts.ResetThenLogin |
