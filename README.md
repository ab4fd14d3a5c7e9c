# Log reconstruction, modelled in Dafny

The tool reads the log files of a data-entry client. Each line is timestamped. The logger is named,
and events are announced by fixed texts: logins, OCR starts and ends, clipboard copies, image-number
updates, `UPDATED` field edits and key presses. The tool rebuilds the work behind those lines:

- user sessions, with their end times, updates, record totals and processed-image counts;
- OCR attempts and the "name" attempts among them;
- shortcut, image-record and field-update tallies;
- breaks between sessions and idle gaps between log lines;
- a stricter per-attempt OCR scan and its per-user, per-day summary;
- per-file image counts;
- a flat list of field updates.

A small companion script migrates the resulting workbook into a database. Its pure pieces are part
of this model:

- the column-name sanitiser;
- the renaming and defaulting of the shortcut sheet's headers;
- the first-usable-column lookup for the user;
- the same-day duration of two clock times.

The model takes each file as a sequence of lines, already read and without line terminators. Every
regular expression the scans use is a hand-written matcher in `Classifier`. Each matcher makes the
same leftmost, greedy or lazy choice as its pattern, with ASCII classes for `\d`, `\w` and `\s`.

Each scan is a `method` with a `while` loop. An invariant ties the loop's variables to a
specification fold over the classified lines, and lemmas about that fold state what the scan
promises.

A timestamp is a whole number of seconds. It counts the days since 0001-01-01, as Python's `datetime`
does, plus the clock time, so subtracting two timestamps gives the same value as `datetime`
arithmetic does. Only the fixed-width, calendar-valid `YYYY-MM-DD HH:MM:SS` text parses.

Rows keep clock times as the second of the day and durations as whole seconds, not as text.
`FormatDuration` renders either one as `HH:MM:SS`, with at least two digits of hours, as the code's `strftime` and
`format_time_duration` do. `FormatDurationRoundTrip` proves the rendering loses nothing.

Two behaviours of the code are easy to miss, and the model keeps both:

- A session's duration is its end time minus its start time, with no clamping at zero
  (log_2_excel.py:184-188). The backward scan for the end time may pass the session's own login
  line, so the duration can be negative.
- `strptime` raises `ValueError` on a matched timestamp such as `2024-02-30 10:00:00`
  (log_2_excel.py:140, :146 and :204), and the code does not catch it. The model makes this an
  explicit `Failure(line)` result, which stops the analysis at that line.

Modules, in dependency order:

- `Wrappers`: `Option` and `Result`.
- `Text`: substring search, `split()` and `strip()` on ASCII whitespace, ASCII `lower()` and decimal digits.
- `Timestamps`: the civil calendar, `strptime`, `strftime("%H:%M:%S")` and `format_time_duration`.
- `Classifier`: the matchers, and `Classify`, which tags a line once with every match it holds.
- `FileNames`: the user and date read from a log file's name.
- The parts of `analyze_log_file`:
  - `Sessions`: session opening, tracking and close-out;
  - `OcrPairing`: OCR pairing and the OCR rows;
  - `Tallies`: the side tallies and their rows;
  - `LogAnalysis`: the whole per-line loop.
- `TimeGaps`: `analyze_time_gaps`.
- `Breaks`: `calculate_break_times`.
- `DetailedOcr`: `extract_detailed_ocr_data`.
- `OcrSummary`: `extract_ocr_durations_for_new_sheet`.
- `UserImages`: `analyze_user_images_in_file`.
- `UpdatedFields`: `collect_updated_fields_snippet`.
- `Migration`: the migration script's pure pieces, with a `Frame` class for the data frame whose
  columns are rewritten in place.

## Model

| member | source | states |
|---|---|---|
| Timestamps.FormatDuration | log_2_excel.py:12-16 | the rendering of a duration has at least eight characters |
| Timestamps.FormatDurationParts | log_2_excel.py:12-16 | the text is hours, minutes and seconds joined by `:`; each has at least two digits; minutes and seconds are below 60; h·3600 + m·60 + s equals the input |
| Timestamps.FormatDurationRoundTrip | log_2_excel.py:12-16 | reading the rendered `HH:MM:SS` text back gives the original number of seconds |
| Timestamps.ParseTimestamp | log_2_excel.py:18-28 | a parse succeeds only on exactly 19 characters of the `YYYY-MM-DD HH:MM:SS` shape that name a valid date and time, and its value is that date-time's seconds |
| Timestamps.TimestampRoundTrip | log_2_excel.py:18-28 | parsing the text a valid date-time is written as gives back its seconds |
| Timestamps.ToSecondsMonotone | log_2_excel.py:146-148 | seconds strictly increase in calendar order, so a later timestamp minus an earlier one is positive, as with `datetime` subtraction |
| Timestamps.ToSecondsInjective | log_2_excel.py:146-148 | two different valid date-times never share a number of seconds |
| Timestamps.ClockTextOfParsed | log_2_excel.py:68-69 | `strftime("%H:%M:%S")` of a parsed timestamp is the clock part of its text |
| Classifier.LoginMatch | log_2_excel.py:86-88 | a login match lies on a line holding the logger's login text; it carries a 19-character timestamp, a non-empty user and a `YYYY-MM-DD` date |
| Classifier.LoginAtMeaning | log_2_excel.py:86-88 | a login matched at a position has the login text after its 19-character timestamp, a non-empty user and a `YYYY-MM-DD` date |
| Classifier.OcrStartMatch | log_2_excel.py:104-106 | an OCR start carries a 19-character timestamp |
| Classifier.OcrEndMatch | log_2_excel.py:107-109 | an OCR end carries a 19-character timestamp and non-empty clipboard text |
| Classifier.ClipboardMatch | log_2_excel.py:94 | the greedy quoted clipboard text is non-empty |
| Classifier.ImageUpdateMatch | log_2_excel.py:89 | the image number and the record id are non-empty digit strings |
| Classifier.OcrImageMatch | log_2_excel.py:95 | the record id is a non-empty digit string and the part after `00` is non-empty |
| Classifier.RecordSuffixMatch | log_2_excel.py:100 | the record number that ends the line is a non-empty digit string |
| Classifier.ShortcutMatch | log_2_excel.py:96-98 | the key name is non-empty and made of word characters and `+` |
| Classifier.DocTypeMatch | log_2_excel.py:92 | a DOC_TYPE count comes only from a line holding the DOC_TYPE text |
| Classifier.RNumMatch | log_2_excel.py:91 | an r_num match lies on an `UPDATED` line and names a non-empty digit record |
| Classifier.FieldUpdateMatch | log_2_excel.py:101 | the updated field is a non-empty run of word characters on an `UPDATED` line |
| Classifier.EditMatch | log_2_excel.py:90 | the lazily matched edit lies on an `UPDATED` line, with a non-empty column, value and record |
| Classifier.EditAtMeaning | log_2_excel.py:90 | an edit matched at a position starts with `UPDATED `; its column, value and record are non-empty |
| Classifier.BeforeSeparator | log_2_excel.py:24 | the text before the first ` - ` is a prefix of the line |
| Classifier.FirstStamp | log_2_excel.py:555 | a timestamp found anywhere in the line has 19 characters |
| Classifier.QuotedMatch | log_2_excel.py:570 | the text between the marker and the next quote contains no quote |
| Classifier.DetailLoginMatch | log_2_excel.py:521 | the detailed scan's login match carries a 10-character date |
| Classifier.SnippetLoginMatch | log_2_excel.py:838 | the snippet's login match carries a 10-character date |
| Classifier.SnippetUpdateMatch | log_2_excel.py:840 | the field after a stand-alone `UPDATED` is non-empty and has no blank |
| Classifier.Classify | log_2_excel.py:136-311 | a login implies the login text; r_num, field and edit matches imply an `UPDATED` line; starts carry 19-character stamps; logins carry non-empty users |
| FileNames.ExtractUserId | log_2_excel.py:780-786 | "Unknown" exactly when the name has no digit; otherwise the whole first run of digits: it starts where the first digit is, and no digit follows it |
| FileNames.FileUserMeaning | log_2_excel.py:513-515 | "Unknown" exactly when no digit run is followed by `_`; otherwise the whole digit run, followed by `_`, at the leftmost position where such a run starts |
| FileNames.ExtractDateMeaning | log_2_excel.py:788-794 | "Unknown" exactly when no `_YYYY-MM-DD.log` occurs; otherwise the date of its leftmost occurrence |
| FileNames.UserOfName | log_2_excel.py:513-515 | in a name made of a digit run and then `_`, the user is that digit run |
| FileNames.DateOfName | log_2_excel.py:788-794 | in a name `<digits>_<YYYY-MM-DD>.log`, the date is the one written there |
| FileNames.FileNameRoundTrip | log_2_excel.py:780-794 | for a name `<digits>_<YYYY-MM-DD>.log`, all three searches read back the digits and the date |
| Sessions.LastLogin | log_2_excel.py:163-166 | the last login line below a position, or None when there is none |
| Sessions.Open | log_2_excel.py:201-222 | a new session starts with empty records, image records, edits and sections, and zero counts |
| Sessions.NearestStamped | log_2_excel.py:170-181 | the nearest line below a position that is not a login line and whose first 19 characters parse |
| Sessions.SessionEnd | log_2_excel.py:167-183 | a session has an end time exactly when some line before the closing line is stamped and not a login line |
| Sessions.FindSessionEnd | log_2_excel.py:170-183 | the backward scan, with its skip and early break, yields the second-nearest stamped line's time, else the nearest's, else none |
| Sessions.TotalRecordCount | log_2_excel.py:191-193 | `total_record_count` is the sum over the images of the largest r_num, 0 for an empty set |
| Sessions.CountNonEmpty | log_2_excel.py:195-198 | the fallback count is the number of images with a non-empty r_num set |
| Sessions.CloseSession | log_2_excel.py:167-199 | the close-out computes the specification's closed session from the open one and the closing position |
| Sessions.CloseMeaning | log_2_excel.py:167-199 | there is an end exactly when a stamped line precedes; without one the duration is 0, and with one it is end minus start, unclamped; a non-zero DOC_TYPE count is kept, else the fallback count is used; the record total is the sum of maxima |
| Sessions.Logins | log_2_excel.py:163-164 | the login lines, increasing |
| Sessions.LoginsComplete | log_2_excel.py:163-164 | every login line is among them |
| Sessions.SessionsPerLogin | log_2_excel.py:163-199 | one session per login line, in order; each is closed at the next login line or at the end of the file |
| Sessions.TrackKeeps | log_2_excel.py:262-311 | tracking a line never changes a session's user, date, start time or log file |
| Sessions.CurrentStep | log_2_excel.py:163-166 | after a login line the current user and date are that line's, and any other line keeps them |
| Sessions.SessionFromLogin | log_2_excel.py:201-222 | a session carries its login line's user, date, start time and log file |
| Sessions.SessionFromUpdates | log_2_excel.py:309-311 | `update_count` counts the `UPDATED` lines from its login line up to the closing line |
| Sessions.SessionFromDocType | log_2_excel.py:274-278 | before close-out, `images_processed_count` is the last DOC_TYPE value of the session, else 0 |
| Sessions.SessionFromRecords | log_2_excel.py:262-272 | `records` is exactly the record ids of the session's image-update lines |
| Sessions.SessionFromImageRecords | log_2_excel.py:262-287 | a record is a key of `image_records` exactly when the session has an image-update or an r_num line for it, and the key holds exactly the values of that record's r_num lines |
| Sessions.SessionFromChars | log_2_excel.py:298-304 | `character_count` is the total length of the new values of the session's edit lines |
| Sessions.SessionFromColumnEdits | log_2_excel.py:298-307 | a column is a key of `column_edits` exactly when the session has an edit line for it, and the key holds the number of those lines |
| Sessions.LastDocType | log_2_excel.py:275-278 | the last DOC_TYPE line in a range, or None when there is none |
| Sessions.SingleLoginFile | log_2_excel.py:314-346 | a file of one login line yields one session: no end time, duration 0, record total 0, processed images 0 |
| OcrPairing.OcrScanValid | log_2_excel.py:136-160 | during the scan, an attempt is open exactly when a start time is set; the current image id has a record; `name_clipboard_count` ≤ `clipboard_count` for every image; at most one attempt per start line is recorded |
| OcrPairing.AttemptNeedsStartAndImage | log_2_excel.py:143-160 | a duration is recorded only on an end line while a start is open and an image id is current; it is filed under that image and consumes the start |
| OcrPairing.AttemptsOf | log_2_excel.py:151 | an image's durations are attempts of that image |
| OcrPairing.NamedOf | log_2_excel.py:152-159 | an image's named attempts are attempts of that image that pass the two-word test |
| OcrPairing.RowsForMeaning | log_2_excel.py:357-396 | an image yields one "Yes" row per named attempt, else one "No" row with the total and count of all its durations; each row carries the image's clipboard count |
| OcrPairing.BuildOcrRows | log_2_excel.py:350-396 | the loop over `ocr_records` builds the rows of each image in insertion order, and both totals |
| OcrPairing.TotalIsSumOfAttempts | log_2_excel.py:350-358 | the per-image sum of durations over all records is the sum of every recorded duration |
| Tallies.ImageAt | log_2_excel.py:225-228 | the current image was named by some earlier image line |
| Tallies.TallyScanImages | log_2_excel.py:225-231 | the sheet5 map holds a record under an image exactly when a record line followed that image line |
| Tallies.TallyScanShortcuts | log_2_excel.py:233-237 | each key's count is the number of lines pressing it |
| Tallies.TallyScanFields | log_2_excel.py:292-297 | each (user, date, field) count is the number of lines that update the field while that user and date are current |
| Tallies.DatesRowsSound | log_2_excel.py:422-431 | each row of a user carries that user, one of its dates, a field updated then, and that field's stored count |
| Tallies.FieldRowsSound | log_2_excel.py:421-431 | each field row names a stored user, one of its dates and a field updated then, and carries the stored count |
| Tallies.FieldRowsComplete | log_2_excel.py:421-431 | every stored count has its row |
| Tallies.ShortcutRows | log_2_excel.py:398-407 | one row per stored key |
| Tallies.ImageRecordRows | log_2_excel.py:409-418 | one row per stored image |
| Tallies.ImageRecordRowsMeaning | log_2_excel.py:409-418 | each row counts the records stored under its own image, which is positive; images appear once, and every stored image appears |
| Tallies.BuildShortcutRows | log_2_excel.py:398-407 | the loop builds the shortcut rows |
| Tallies.BuildImageRecordRows | log_2_excel.py:409-418 | the loop builds the image-record rows |
| Tallies.AppendNameRows | log_2_excel.py:427-431 | the innermost loop appends the rows of one user and date, one per field in insertion order |
| Tallies.BuildFieldRows | log_2_excel.py:421-431 | the three nested loops build the field rows |
| LogAnalysis.WithTotals | log_2_excel.py:433-436 | every session gets the file's two OCR totals, and nothing else about it changes |
| LogAnalysis.AttachTotals | log_2_excel.py:433-436 | the loop attaches the totals |
| LogAnalysis.ScanLine | log_2_excel.py:136-311 | one iteration raises exactly when the line raises, and otherwise advances the state to the fold's next state |
| LogAnalysis.LoginBlock | log_2_excel.py:163-222 | the login block raises exactly on an invalid login stamp; otherwise it updates user and date as the fold does |
| LogAnalysis.AnalyzeInfos | log_2_excel.py:136-438 | the analysis of classified lines equals its specification |
| LogAnalysis.AnalyzeLogFile | log_2_excel.py:81-438 | `analyze_log_file` on a file's lines equals its specification |
| LogAnalysis.AnalysisFailure | log_2_excel.py:136-204 | the analysis fails exactly when some line raises, and it fails at the first such line |
| LogAnalysis.SuccessReport | log_2_excel.py:136-438 | a successful analysis yields the report of the folds, and no line raises |
| LogAnalysis.AnalysisSucceeds | log_2_excel.py:136-204 | a file whose matched timestamps are all calendar dates does not raise |
| LogAnalysis.AnalysisSessions | log_2_excel.py:163-346 | one session per login line, in file order: the k-th carries that login's user and date, starts at its timestamp, counts the `UPDATED` lines up to the next login, and carries the sum of all OCR durations |
| LogAnalysis.AnalysisShortcuts | log_2_excel.py:233-237 | each shortcut row counts its key's presses; keys appear once, and every pressed key appears |
| LogAnalysis.AnalysisImageRecords | log_2_excel.py:225-231 | each image row counts the distinct records under its image; images appear once, and every image with a record appears |
| LogAnalysis.AnalysisFieldUpdates | log_2_excel.py:292-297 | each field row counts the updates of its field under its user and date, and every such triple has its row |
| TimeGaps.GapRowMeaning | log_2_excel.py:463-489 | a gap spans at least 120 s between adjacent lines; its clock times are the times of day of the pair's stamps, and its lines are the pair's; its user and date come from the last login before it, or are None |
| TimeGaps.GapStarts | log_2_excel.py:463-476 | the gap positions are exactly the adjacent pairs that qualify, increasing |
| TimeGaps.GapsBelow | log_2_excel.py:463-489 | at most one gap per adjacent pair, so at most len(lines) − 1 gaps |
| TimeGaps.GapsAreRows | log_2_excel.py:463-489 | the k-th gap is the row of the k-th qualifying pair: every gap comes from one pair and every qualifying pair gives a gap |
| TimeGaps.TimeGapsOf | log_2_excel.py:463-489 | the loop, which skips login lines, yields the gaps of the specification |
| TimeGaps.AnalyzeTimeGaps | log_2_excel.py:444-490 | `analyze_time_gaps` on a file's lines |
| Breaks.UsersBelow | log_2_excel.py:47-49 | the grouped users are distinct |
| Breaks.GroupBelow | log_2_excel.py:47-49 | a user's group holds only that user's sessions that have both start and end |
| Breaks.UsersAndGroups | log_2_excel.py:47-49 | a user is grouped, with a non-empty group, exactly when one of its sessions has an end |
| Breaks.Insert | log_2_excel.py:53 | insertion adds one occurrence of the session and keeps the others |
| Breaks.InsertPermutes | log_2_excel.py:53 | insertion adds exactly one occurrence of the new session to the multiset |
| Breaks.InsertSorted | log_2_excel.py:53 | insertion into a list sorted by start keeps it sorted |
| Breaks.SortByStartSorted | log_2_excel.py:53 | the sort orders by start time |
| Breaks.SortByStartPermutes | log_2_excel.py:53 | the sort is a permutation of its input |
| Breaks.SortByStartSorts | log_2_excel.py:53 | the sort orders by start time and is a permutation of its input |
| Breaks.SortByStartStable | log_2_excel.py:53 | sessions with one start time keep their input order, as in Python's stable sort |
| Breaks.BreakRowMeaning | log_2_excel.py:60-74 | a break belongs to its user and to a date shared by both sessions; it runs from the earlier session's end to the later one's start, and is positive |
| Breaks.BreakStarts | log_2_excel.py:55-65 | the break positions are exactly the sorted-adjacent same-date pairs with a positive gap, increasing |
| Breaks.BreaksPerUser | log_2_excel.py:47-75 | a user gets at most one break fewer than its eligible sessions |
| Breaks.BreakOrigin | log_2_excel.py:52-74 | every break joins two sorted-adjacent sessions of its user on one date |
| Breaks.BreakComplete | log_2_excel.py:52-74 | every qualifying pair of a user's sorted sessions gives its break |
| Breaks.GroupSessions | log_2_excel.py:46-49 | the grouping loop gives the users in first-seen order and each user's eligible sessions in input order |
| Breaks.UserBreakLoop | log_2_excel.py:55-74 | the pair loop over one user's sorted sessions yields that user's breaks |
| Breaks.CalculateBreakTimes | log_2_excel.py:34-75 | `calculate_break_times` equals its specification |
| DetailedOcr.CloseMeaning | log_2_excel.py:535-553 | a record is emitted exactly when one is open and has an end or clipboard time; its seconds are end minus start, clamped at 0; it carries the texts, flag, user, date and file |
| DetailedOcr.UpdateMeaning | log_2_excel.py:569-592 | later lines keep the start; only a clipboard line changes the clipboard text; only a confirming `UPDATED` line sets "Has UPDATED" |
| DetailedOcr.ScanFailure | log_2_excel.py:553-592 | the scan fails only at a line whose matched timestamp is not a calendar date |
| DetailedOcr.ScanSuccess | log_2_excel.py:553-592 | the scan succeeds when no line's matched timestamp is invalid |
| DetailedOcr.RowsCount | log_2_excel.py:533-614 | at most one record per timestamped `perform_ocr_on_cropped_image:` line |
| DetailedOcr.FileRowsSound | log_2_excel.py:527-614 | every emitted duration is ≥ 0 and names the file; "Has UPDATED" holds only when an `UPDATED` line contained one of the first three clipboard words longer than two characters |
| DetailedOcr.FirstWords | log_2_excel.py:587 | at most three words are kept |
| DetailedOcr.ReadLine | log_2_excel.py:533-592 | one pass of the loop body raises exactly when the specification's step fails at that line, and otherwise yields the step's next state |
| DetailedOcr.ScanLines | log_2_excel.py:527-614 | the per-line loop, with the final close-out, equals the specification fold |
| DetailedOcr.ExtractDetailedOcrData | log_2_excel.py:496-616 | `extract_detailed_ocr_data` tracks logins and starts from the name's user and date |
| OcrSummary.NewRow | log_2_excel.py:670-680 | a new-sheet row is instant exactly when its duration is 0 s |
| OcrSummary.FileRowsMeaning | log_2_excel.py:635-735 | every row of a file has the name's user and date and a duration ≥ 0, and there is at most one row per start line |
| OcrSummary.AllRowsFailure | log_2_excel.py:635-735 | a failure names a file and a line of it whose timestamp is invalid |
| OcrSummary.OcrDurations | log_2_excel.py:635-737 | the per-file loop concatenates the files' rows or stops at the first failure |
| OcrSummary.FileResultsAt | log_2_excel.py:635-735 | the n-th file's result is that file's own rows, read under its name's user and date |
| OcrSummary.FileOcr | log_2_excel.py:660-735 | the scan of the n-th file gives that file's result, read under the user and date of its name |
| OcrSummary.LinesOcr | log_2_excel.py:660-735 | a file's scan under a user and date gives the detailed rows turned into new-sheet rows, or the failing line |
| OcrSummary.CountMeaning | log_2_excel.py:751-755 | a (user, date) has rows exactly when some row carries it; its instant rows are among them |
| OcrSummary.SumSecondsNonNegative | log_2_excel.py:751-755 | a group's total duration is never negative |
| OcrSummary.Summarize | log_2_excel.py:751-763 | one summary entry per (user, date) with rows: its total, instant and other attempts (0 ≤ others ≤ total) and its summed seconds |
| OcrSummary.ExtractOcrDurations | log_2_excel.py:622-774 | any failure propagates; no rows gives None; otherwise the rows and their summary |
| UserImages.TagOf | log_2_excel.py:816-821 | an image line names a non-empty last word and contains the marker; a line without the marker names none |
| UserImages.ImagesBelowMeaning | log_2_excel.py:815-822 | unique images are those some image line names; processed images are those an `UPDATED` line follows; processed ⊆ unique |
| UserImages.ScanImages | log_2_excel.py:815-822 | the per-line loop yields the unique and processed sets of the specification, with no more processed than unique images |
| UserImages.AnalyzeUserImages | log_2_excel.py:796-826 | the name's user and date, the two set sizes, and processed ≤ unique |
| UpdatedFields.CurrentMeaning | log_2_excel.py:849-858 | the user and date are "Unknown" before any login, else the last login's |
| UpdatedFields.UpdateLines | log_2_excel.py:860-861 | the updating lines, increasing and complete |
| UpdatedFields.RowsBelowMeaning | log_2_excel.py:853-868 | one row per updating line, in order, naming its field with count 1 under the user and date in force on that line |
| UpdatedFields.RowsOf | log_2_excel.py:854-868 | the per-line loop yields exactly those rows |
| UpdatedFields.FileRows | log_2_excel.py:849-868 | one file's rows |
| UpdatedFields.AllRowsPrefix | log_2_excel.py:845-870 | earlier files' rows come first, unchanged |
| UpdatedFields.AllRowsCountOne | log_2_excel.py:863-868 | every collected row counts one update |
| UpdatedFields.CollectUpdatedFields | log_2_excel.py:832-884 | the folder loop concatenates the files' rows; no file or no update gives no rows |
| Migration.SanitizeName | migration_code.py:66-70 | a sanitised name is no longer than the input and holds only word characters, none upper-case |
| Migration.SanitizeChar | migration_code.py:66-70 | a space becomes `_`, a word character is lower-cased, anything else is dropped |
| Migration.SanitizeConcat | migration_code.py:66-70 | sanitising works character by character, so kept characters keep their order |
| Migration.SanitizeIdempotent | migration_code.py:66-70 | sanitising twice gives the same name as sanitising once |
| Migration.Frame.constructor | migration_code.py:1274 | a frame over the given columns with nothing added |
| Migration.Frame.SanitizeColumnNames | migration_code.py:62-70 | the columns are replaced in place by their sanitised names, and there are as many as before |
| Migration.Frame.Rename | migration_code.py:1285 | each column in the map is renamed, the others are kept, and the count is unchanged |
| Migration.Frame.FillMissing | migration_code.py:1287-1298 | the missing needed columns are appended with their defaults; afterwards every needed column exists and nothing else changes |
| Migration.MissingNeeded | migration_code.py:1287-1289 | the needed columns absent from the frame |
| Migration.ShortcutTarget | migration_code.py:1276-1284 | a renamed header always becomes one of the needed names |
| Migration.TargetsAreFixed | migration_code.py:1276-1284 | each needed name maps to itself |
| Migration.TargetIgnoresCase | migration_code.py:1277 | the rule sees only the lower-cased header |
| Migration.RenameMap | migration_code.py:1275-1284 | the rename map has exactly the headers that match a rule, each mapped by the first rule that matches |
| Migration.ShortcutSheet | migration_code.py:1272-1298 | the columns are the renamed headers followed by exactly the needed columns they lack; exactly those are added, each holding its default; every needed column exists |
| Migration.RenamedHeaders | migration_code.py:1275-1285 | the headers keep their number and order; each header a rename rule matches becomes that rule's target, and every other header stays |
| Migration.FirstOf | migration_code.py:433-437 | the value comes from the first candidate that is a column and is non-null in the row; None exactly when no candidate is usable |
| Migration.FirstCandidate | migration_code.py:433-437 | the candidate loop with its `break` yields that value |
| Migration.RowUser | migration_code.py:433-439 | the row's user, or None (the row is skipped) when no candidate is usable or the value is empty |
| Migration.DurationSeconds | migration_code.py:711-720 | 0 when either time is missing; otherwise end − start on one day, negative when the end is earlier, with no midnight wrap |

## Left out

- Reading files and folders is not modelled: `open`, `readlines`, `glob`, `os.listdir` and their listing order, and `process_log_folder`. The model takes each file's lines, and its name, as values.
- The `try`/`except` around reading a file is not modelled. A file that cannot be read, and the error message printed for it, are I/O.
- `process_log_folder`'s aggregation of `analyze_user_images_in_file` results into `user_image_map` is left out, with the rest of that function.
- Excel output is not modelled: `create_excel_report`, the pandas frames, the `datetime.now()` path stamp and the `HH:MM:SS` text made from float minutes through `timedelta`.
- Float quantities are not modelled: `duration_minutes`, average OCR durations, `secs / 60`, the summary's total minutes and the rounding to two decimals. Durations are kept as whole seconds.
- OcrSummary.Summarize: the result is a map keyed by (user, date), so pandas `groupby`'s sorted row order is not modelled.
- Regular-expression semantics beyond the patterns used are not modelled. Classes are ASCII.
- Timestamps.ParseTimestamp: only the fixed-width `YYYY-MM-DD HH:MM:SS` text with ASCII digits parses. Python's `strptime` is more lenient. It accepts one-digit `%m`, `%d`, `%H`, `%M` and `%S`, and a space before a one-digit day. It matches the format's space as any run of whitespace, and any Unicode decimal digit as `\d`. Text that a regular expression captures first has the fixed width, so only two paths see the difference. The first is `extract_timestamp_line` (log_2_excel.py:18-28), used by `TimeGaps`: `2024-01-05 9:00:00 - x` has a timestamp in Python but none in the model, so a gap can appear or vanish. The second is the `line[:19]` parse of the end-time scan (log_2_excel.py:174-175 and :321-322), `Sessions.NearestStamped` and `Sessions.FindSessionEnd`: a 19-character text such as `2024-1-05  09:00:00` is a stamp in Python but not in the model.
- Text.Lower: ASCII letters only, where Python's `str.lower()` covers all of Unicode.
- Text.Split, Text.Strip: whitespace is `Text.IsSpace`, the ASCII whitespace and U+001C to U+001F. Python's `str.split()` and `str.strip()` also split at and strip U+0085, U+00A0, U+1680, U+2000 to U+200A, U+2028, U+2029, U+202F, U+205F and U+3000. A line holding one of these can therefore differ in the two-word name test (log_2_excel.py:152-159), in `DetailedOcr.FirstWords` and the "Has UPDATED" test, and in `UserImages.TagOf`.
- Line terminators are dropped, so `.` in a pattern matches any character and `$` is the end of the string.
- Migration.CellText: a cell's text is given for text, integer and date cells only. Python's `str()` of a float is not modelled.
- Migration.ShortcutSheet: the `pd.to_datetime` and `pd.to_numeric` coercion of the `cr_date` and `shortcut` columns, with its `fillna` defaults (migration_code.py:1300-1305), is pandas library work and is not modelled.
- Migration.DurationSeconds: Python versions before 3.5 treat midnight as false in `if not start_time`. The model treats midnight as a time like any other.
- OcrSummary.NewRow: the new sheet does not write "Has UPDATED" or the log file name, so the model's row drops them too.
- The database code of the migration script is not part of this model: the connection, the table creation, all `migrate_*` functions, the reference checks, and the pandas-based Excel reading.
- The other scripts are not part of this model: the two Excel-to-database loaders, the heat-map script and the runner.
