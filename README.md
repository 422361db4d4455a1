# CourseReview core rules, modelled in Dafny

CourseReview is the course-review site of the UM-SJTU Joint Institute: a Django back end, a Vue front end
and a crawler that fills the course tables. Much of the code is request, ORM and Redis plumbing. Inside it sit
self-contained rules, and this project models those rules over in-memory sequences and maps and proves what
they promise:

- **Sign-in handshake** (`AuthHandshake`, `AuthUtils`). `initiate` writes a random one-time code and a pending
  temp-token state. `verify` matches a questionnaire answer to that code: it rate-limits, spends the code by
  get-and-delete, checks the time window and marks the token verified. `signup`/`reset` then spend a verified
  token. The Redis store is a `map<string, Entry>` field of the class `AuthStore`, with one method per endpoint.
- **Legacy session verifier** (`Verifier`). A session goes from none to `turnstile_verified`, then to
  `fully_verified`; the webhook promotes the first waiting session whose code a submission quotes.
- **Ratings and kudos** (`Ratings`, `ReviewVotes`, `Reviews`, `Students`, `Migration`). One vote per
  (course, user, category) and per (review, user); toggling, flipping and withdrawing votes; per-course averages
  as exact rationals; the +1/−1 to 4/2 migration.
- **Terms** (`Terms`, `CurrentTerm`). Parsing, ordering, validity and successor of terms such as `24F`, and the
  current term of a date.
- **Settings** (`Config`). Defaults, file and environment deep-merged (the merge is modelled on values, without
  the sharing of sub-dictionaries), `A__B` names read as nested paths, and dotted lookups with casts.
- **Validators and sanitisers** (`Logging`, `Validation`, `Serializers`, `SpiderUtils`, `Orc`). The log
  sanitiser, the front-end password meter and checks, the review field validators, and the crawler's parsers.
- **Course lists** (`Courses`, `WebViews`, `Sorting`). Search classification, display names, offered periods,
  instructors, sort/filter/page resolution, the prior-course window, session-id bookkeeping, the vote endpoint
  and the grouping of grade medians.
- **Spider data** (`SpiderManager`, `CrawledData`). JSONL framing with a load-after-save round trip, the
  course-selection save, the menu and API-choice parsers, file classification, regrouping of cached records,
  and change detection with the review ordering of crawled rows.
- **Front-end state** (`CourseBrowser`, `AuthState`). The course list's pagination, filters and URL query, with
  their round trip; the auth state's storage precedence, save, clear and validity.

Shared modules: `Wrappers` (Option, Result), `Strs` (Python and JavaScript string operations), `Values`
(JSON-like values), `Seqs` (filters, counts and sums), `Ids` (primary keys).

Inputs the code takes from outside are parameters of the model:
- clocks: `now`, and a `parseTime` function standing for `dateutil` parsing;
- random bytes and tokens;
- replies from the bot check and the questionnaire;
- SHA-256, as an arbitrary function from strings to strings (no property of it is assumed);
- JSON encoding, as a codec whose dumps are one line and load back;
- Django's password validators, as a function from a password to its error messages;
- whether a session could be created.

Where the source contradicts itself, the model follows the code as written. Examples:
- `course_vote_api` unpacks three values from the two `VoteManager.vote` returns, after the vote and its stale score are saved;
- the search filters on `title`, which the course table does not have;
- `diff` tests a bound method for truth instead of calling it.

Five such places are real defects with a corrected reading; they are listed under "## Findings". The stateful classes follow the code as written there too (the vote API casts the stale-score vote, the auth store reads `verification_code`); the corrected readings are separate members.

## Model

| member | source | states |
|---|---|---|
| Terms.NumericValueOfTerm | lib/terms.py:4-13 | a string not matching the term pattern has value 0; a matching one raises exactly when its season is winter (the table has no "w"); otherwise the value is at least 2, its tens are the two-digit year and its last digit the season's rank |
| Terms.TermOrder | lib/terms.py:7-13 | for well-formed terms, comparing values is comparing year first and then season (S < X < F) |
| Terms.IsValidTerm | lib/terms.py:16-33 | `is_valid_term` against the current term; its partners IsValidTermRejectsMalformed, IsValidTermIsOrder and IsValidTermWinterCurrent state that a malformed term is invalid, that validity is the value order otherwise, and that a winter current term raises |
| Terms.IsValidTermRejectsMalformed | lib/terms.py:16-23 | a term that is not three characters, two digits and an X/S/F season is invalid, without raising |
| Terms.IsValidTermIsOrder | lib/terms.py:16-33 | for a well-formed term and a non-winter current term, the term is valid exactly when its value does not exceed the current term's |
| Terms.IsValidTermWinterCurrent | lib/terms.py:24-26 | when the current term is a winter term, every well-formed term raises the season-table KeyError |
| Terms.SplitTerm | lib/terms.py:36-43 | succeeds exactly on strings matching the term pattern, giving the two-digit year and the upper-cased season; otherwise ValueError |
| Terms.GetNextTerm | lib/terms.py:46-56 | fails exactly when the term does not match the pattern |
| Terms.MakeTermParts | lib/terms.py:46-56 | a term printed from a year 10..99 and a season matches the pattern and reads back as that year and season |
| Terms.NextTermStep | lib/terms.py:46-56 | the successor of a term is the next season, in the next year after fall, and is itself a three-character term |
| Terms.NextTermMake | lib/terms.py:46-56 | the successor of year y, season s is the printed term of the next season, with y + 1 after fall |
| Terms.NextTermUnpadded | lib/terms.py:56 | the year of the successor is printed without zero padding: "05S" is followed by "5X" |
| Terms.NextTermCentury | lib/terms.py:48-56 | the successor of "99F" is the four-character "100W" |
| CurrentTerm.SeasonOfMonth | utils/constants.py:9-14 | months 2-4 are spring, 5-8 summer and every other month fall |
| CurrentTerm.LastTwoDigits | utils/constants.py:6 | dropping the first two characters of a four-digit year leaves its last two decimal digits |
| CurrentTerm.GetCurrentTerm | utils/constants.py:4-16 | the current term; CurrentTermIsTerm and LastTwoDigits state that it is a well-formed term of the year modulo 100 and the month's season |
| CurrentTerm.CurrentTermIsTerm | utils/constants.py:4-16 | the current term of a four-digit year is a well-formed term of that year modulo 100 and the month's season, with a positive value |
| Students.IsValidSjtuStudentEmail | apps/web/models/student.py:16-21 | the email check; EmailAccepted and EmailAcceptedShape state both directions of "accepted iff one `@` and the domain is sjtu.edu.cn" |
| Students.EmailAccepted | apps/web/models/student.py:16-21 | every local part without "@" followed by "@sjtu.edu.cn" is accepted, the empty one included |
| Students.EmailAcceptedShape | apps/web/models/student.py:16-21 | every accepted address is exactly a local part without "@", then "@", then the domain |
| Students.EmailRejectsAtCount | apps/web/models/student.py:17-19 | an address with no "@" or with more than one is rejected |
| Students.EmptyLocalAccepted | apps/web/models/student.py:16-21 | "@sjtu.edu.cn" alone is accepted |
| Students.UpperCaseDomainRejected | apps/web/models/student.py:20-21 | the domain comparison is case-sensitive: "a@SJTU.EDU.CN" is rejected |
| Students.OtherDomainRejected | apps/web/models/student.py:20-21 | a single "@" followed by any other domain is rejected |
| Students.CanSeeRecommendations | apps/web/models/student.py:55-59 | the recommendation gate; NoUpvotesNoRecommendations and UpvoteCountStep (below) tie it to the quality-upvote count |
| Students.NoUpvotesNoRecommendations | apps/web/models/student.py:55-59 | a user with no quality vote of 4 or more sees recommendations only when the required number of upvotes is not positive |
| Ratings.NumQualityUpvotesForUser | apps/web/models/vote.py:85-88 | the user's quality votes of 4 or more; UpvoteCountStep states that one more row adds one exactly for such a vote |
| Students.UpvoteCountStep | apps/web/models/vote.py:85-88 | one more vote row raises the user's quality-upvote count by one exactly when it is that user's quality vote of at least 4 |
| Ratings.AverageScore | apps/web/models/vote.py:42-51 | the exact mean of the nonzero votes (rounding left out); NoVotesNoTotal, AverageIgnoresOtherRows, AverageAddsVote and AverageChangesVote state its value, its frame and its update when a vote is added or changed |
| Ratings.CountedNonNegative | apps/web/models/vote.py:44-49 | the number of nonzero votes of a course in a category is never negative |
| Ratings.NoVotesNoTotal | apps/web/models/vote.py:44-47 | when a course has no nonzero vote in a category the total is 0 too, so the average reads as 0 |
| Ratings.AverageIgnoresOtherRows | apps/web/models/vote.py:44 | a row of another course, another category or with value 0 leaves the average of a course and category unchanged |
| Ratings.AverageAddsVote | apps/web/models/vote.py:44-51 | a new nonzero vote adds its value to the total and one to the count of its course and category |
| Ratings.AverageChangesVote | apps/web/models/vote.py:44-51 | changing one stored vote from a to b moves the total by b - a and the count by the change in whether the value is nonzero |
| Ratings.FindVote | apps/web/models/vote.py:19 | the found index holds the first row with the key (course, user, category); None means no row has it |
| Ratings.LookupVote | apps/web/models/vote.py:73-83 | None exactly when no row has the key; otherwise a row of the table with that key (together with line 19 of the same file) |
| Ratings.LookupUnique | apps/web/models/vote.py:113 | with unique keys, looking up a row's key gives back that row (together with line 19 of the same file) |
| Ratings.NewValue | apps/web/models/vote.py:21-27 | resubmitting the existing value stores 0 and reports an unvote; otherwise the submitted value is stored and it is an unvote exactly when that value is 0 |
| Ratings.SameValueTwiceWithdraws | apps/web/models/vote.py:19-27 | submitting the same rating twice to a fresh key withdraws it (0, unvote) |
| Ratings.ApplyVoteSpec | apps/web/models/vote.py:113 | storing a vote keeps the keys unique, leaves the stored value under its key, adds at most one row, and leaves every row with another key in place (together with lines 19, 39 of the same file) |
| Ratings.VoteTable.constructor | apps/web/models/vote.py:91-113 | an empty vote table for the given courses, with zero scores |
| Ratings.VoteTable.Vote | apps/web/models/vote.py:11-40 | as written: a value outside 0..5 returns (None, False) and changes nothing; an unknown course fails; otherwise the row gets the new value and the voted category's score becomes the average computed before the vote is saved (an unknown category gives None) |
| Ratings.VoteTable.VoteAfterSave | apps/web/models/vote.py:11-40 | as intended: as Vote, but the score of the voted category is the average over the table with the new vote in it |
| Ratings.VoteTable.ForCourseAndUser | apps/web/models/vote.py:72-83 | the (difficulty, quality) votes of the user on the course, each None when absent |
| Ratings.LookupExtend | apps/web/models/vote.py:77-81 | with unique keys, looking a key up in one more row finds that row exactly when it has the key, and otherwise gives the earlier result |
| Ratings.StaleScoreExample | apps/web/models/vote.py:19-39 | on an empty table a first quality vote of 5 reports score 0, while the saved table has average 5 |
| Ratings.StaleScoreIsPriorScore | apps/web/models/vote.py:19-32 | the average computed after get_or_create equals the average before the vote, whatever the vote |
| Ratings.ScoreAfterSave | apps/web/models/vote.py:26-51 | after saving, the total moves by the new value minus the old one and the count by the change in whether the value is nonzero |
| Reviews.UserCanWriteReview | apps/web/models/review.py:8-9 | a user may write a review of a course exactly when no review of that course by that user exists |
| Reviews.NumReviewsForUser | apps/web/models/review.py:11-12 | the count is at most the number of reviews, and 0 exactly when the user wrote none |
| Reviews.Latest | apps/web/models/review.py:24-26 | a review of the list with the greatest creation time |
| Reviews.GetUserReviewForCourse | apps/web/models/review.py:14-26 | None exactly when the user has no review of the course; otherwise one of their reviews of it, the latest when there are several and the only one when there is one |
| Reviews.GetKudosCount | apps/web/models/review.py:28-30 | a count exists exactly when the review exists (get raises otherwise) |
| Reviews.GetDislikeCount | apps/web/models/review.py:32-34 | a count exists exactly when the review exists |
| Reviews.GetVoteCounts | apps/web/models/review.py:36-40 | the pair of the kudos and dislike counts, present exactly when the review exists |
| Reviews.KudosPlusDislikes | apps/web/models/review.py:28-34 | kudos plus dislikes is the number of votes on the review |
| ReviewVotes.FindReviewVote | apps/web/models/vote_for_review.py:32-34 | the found index holds the user's vote on the review; None means there is none |
| ReviewVotes.FindUnique | apps/web/models/vote_for_review.py:84 | with one vote per (review, user), finding a vote's own key gives back its index |
| ReviewVotes.ToggleSpec | apps/web/models/vote_for_review.py:32-49 | toggling keeps one vote per (review, user), the reported vote is the stored one, and it is None exactly when the same vote was already there (together with line 84 of the same file) |
| ReviewVotes.ToggleTwiceRestores | apps/web/models/vote_for_review.py:36-44 | voting the same way twice from no vote gives back the original table and reports no vote |
| ReviewVotes.FindAppended | apps/web/models/vote_for_review.py:32-34 | a vote created for a voter who had none is found at the end of the table |
| ReviewVotes.ToggleKudosCount | apps/web/models/vote_for_review.py:36-58 | the kudos count after toggling loses one if the user's kudos was withdrawn or flipped and gains one if a kudos was created or flipped in |
| ReviewVotes.ReviewVoteTable.constructor | apps/web/models/vote_for_review.py:70-84 | an empty vote table over the given reviews |
| ReviewVotes.ReviewVoteTable.VoteAsWritten | apps/web/models/vote_for_review.py:26-58 | as written: an unknown review returns (None, None, None); for a known review the call of the undefined with_votes raises, and the transaction leaves the table unchanged |
| ReviewVotes.ReviewVoteTable.Vote | apps/web/models/vote_for_review.py:11-58 | as intended: an unknown review changes nothing; otherwise the vote is created, withdrawn or flipped, and the result is the kudos and dislike counts after the update with the user's new vote |
| ReviewVotes.ReviewVoteTable.GetUserVote | apps/web/models/vote_for_review.py:60-67 | None for an anonymous user; otherwise present exactly when the user has a vote on the review, and then that vote's is_kudos |
| Migration.Remap | scripts/migrate_votes_to_rating_system.py:35-44 | the value after both bulk updates; RemapIdempotent and BulkUpdatesAreRemap state that it is idempotent and equals the two updates in sequence |
| Migration.RemapIdempotent | scripts/migrate_votes_to_rating_system.py:35-44 | relabelling an already relabelled value changes nothing, and no relabelled value is 1 or -1 |
| Migration.Relabel | scripts/migrate_votes_to_rating_system.py:35-37 | one bulk update keeps the length and rewrites exactly the votes with the old value, leaving the others as they were |
| Migration.Remapped | scripts/migrate_votes_to_rating_system.py:35-44 | relabelling each vote on its own keeps the number of votes |
| Migration.BulkUpdatesAreRemap | scripts/migrate_votes_to_rating_system.py:35-44 | the two bulk updates, 1 to 4 and then -1 to 2, equal relabelling every vote independently |
| Migration.MigrationIdempotent | scripts/migrate_votes_to_rating_system.py:35-44 | running the relabelling twice gives the values of running it once |
| Migration.RemappedKeepsKeys | scripts/migrate_votes_to_rating_system.py:35-44 | relabelling changes values only, so the (course, user, category) keys stay unique |
| Migration.UpvotesAfterMigration | scripts/migrate_votes_to_rating_system.py:35-37 | after the migration a user's quality upvotes (value at least 4) are their old quality votes of 1 or of at least 4 |
| Migration.BulkUpdate | scripts/migrate_votes_to_rating_system.py:35-43 | the loop of one bulk update relabels the vote table in place and leaves the scores alone |
| Migration.RecomputeScore | scripts/migrate_votes_to_rating_system.py:51-61 | the loop over a course's votes computes the same mean as the vote manager's average score |
| Migration.MigrateVotes | scripts/migrate_votes_to_rating_system.py:24-77 | the votes end up relabelled, the set of courses is unchanged, and every course's quality and difficulty scores are the means of its nonzero relabelled votes |
| Config.DeepMerge | website/config.py:39-51 | the merged dictionary has exactly the keys of both |
| Config.MergeIntoEmpty | website/config.py:34-35 | merging into an empty dictionary gives the incoming one |
| Config.MergeOverrides | website/config.py:49-51 | a non-dict value at a path of the new dictionary is what the merged one holds there |
| Config.MergeKeepsBase | website/config.py:42 | paths whose first key the new dictionary lacks keep the base's value |
| Config.MergeDictsAtPath | website/config.py:44-48 | where both hold dictionaries at the same path, the result holds their merge |
| Config.Precedence | website/config.py:34-37 | a scalar from the environment wins; otherwise one from YAML; a first key in neither source keeps the default |
| Config.MergeInto | website/config.py:39-51 | the in-place loop over the new dictionary's keys computes the deep merge |
| Config.SetPathSpec | website/config.py:77-89 | storing a variable at a nested path fails exactly when a prefix of the path is already a scalar; otherwise the value is at the path, one top-level key may be added, and the other top-level keys are untouched |
| Config.TopLevelIsOnePartPath | website/config.py:72-77 | a name without "__" is stored at top level, as the nested code would store a one-part path |
| Config.LastVariableWins | website/config.py:70-89 | after a successful load the last variable's value sits at its path |
| Config.LoadFromEnv | website/config.py:66-91 | the loop over the environment builds the nested dictionary, or stops at the first conflict |
| Config.LoadErrorSticks | website/config.py:81-87 | a conflict in a prefix of the environment is the result of the whole load |
| Config.StripAll | website/config.py:130 | each item of the list cast is stripped, and their number is kept |
| Config.BoolCastRoundTrip | website/config.py:127-128 | a bool written with str() reads back as that bool under the bool cast |
| Config.IntCastRoundTrip | website/config.py:131-132 | an int written with str() reads back as that int under the int cast |
| Config.IntCastOf | website/config.py:131-132 | a string that int() reads as i casts to i |
| Config.ListCastRoundTrip | website/config.py:129-130 | a comma-joined list of stripped, comma-free items reads back as those items under the list cast |
| Config.Settings.constructor | website/config.py:26-37 | the final configuration is the empty dictionary merged with defaults (or {}), then YAML, then the environment |
| Config.Settings.Get | website/config.py:115-140 | a missing path raises when required and gives None when not; a present value gives its cast, and a value the cast rejects is an ImproperlyConfigured error; without a cast and not required the result is the value itself |
| Config.Load | website/config.py:66-91 | loading fails exactly when the environment has a conflict, and otherwise yields the layered configuration (together with lines 26-37 of the same file) |
| Logging.RemoveControl | utils/logging.py:63 | the first substitution never lengthens the text and leaves no code point 0 to 31 or 127 |
| Logging.ParamRun | utils/logging.py:66 | the run of `[0-9;]` characters at the start is maximal |
| Logging.AnsiMatch | utils/logging.py:66 | a match of the ANSI pattern starts with ESC and is at least three characters long |
| Logging.RemoveAnsiNoEsc | utils/logging.py:63-66 | without an ESC character the ANSI substitution changes nothing |
| Logging.RemoveControlNoOp | utils/logging.py:63 | removing control characters from a text without any changes nothing |
| Logging.RemoveControlSubsequence | utils/logging.py:63 | removing control characters only deletes characters |
| Logging.NoControlNoEsc | utils/logging.py:63-66 | ESC is one of the removed control characters, so none is left for the ANSI pass |
| Logging.Truncated | utils/logging.py:55-59 | a text of at most max_length characters is kept; a longer one becomes its first max_length characters plus "...[truncated]" |
| Logging.SanitizeValue | utils/logging.py:41-68 | None gives "None"; the result is at most max_length + 14 characters long and holds no control character; a string that fits never grows |
| Logging.SanitizeIsSubsequence | utils/logging.py:55-66 | the result only deletes characters from the truncated text, and the ANSI pass never fires |
| Logging.SanitizeIdempotent | utils/logging.py:41-68 | sanitising a string that fits twice gives the result of sanitising it once |
| Logging.SanitizationFilter.constructor | utils/logging.py:11-13 | the filter keeps the given maximum length |
| Logging.SanitizationFilter.Filter | utils/logging.py:15-39 | the filter always keeps the record; it sanitises exactly the string arguments, keeps the other arguments, sanitises the message, and wraps the message getter once more |
| Logging.LogRecord.constructor | utils/logging.py:15-27 | a record with the given arguments and message, its message getter not yet wrapped |
| Logging.WrappedMessage | utils/logging.py:29-37 | a wrapped message getter returns at most the limit of the outermost filter plus 14 characters, and no control character |
| Validation.Utf16Length | frontend/src/utils/validation.js:71-73 | a JavaScript length counts UTF-16 code units, never fewer than the characters (together with line 14 of the same file) |
| Validation.Utf16LengthAppend | frontend/src/utils/validation.js:14 | the UTF-16 length of a concatenation is the sum of the lengths |
| Validation.Strength | frontend/src/utils/validation.js:10-24 | the strength score; CalculatePasswordStrength computes it step by step, and StrengthRange, StrengthMonotone and ValidPasswordNotWeak state its range, its monotonicity and its bound for accepted passwords |
| Validation.CalculatePasswordStrength | frontend/src/utils/validation.js:10-24 | the score accumulated test by test is the strength of the password |
| Validation.NonEmptyHasAClass | frontend/src/utils/validation.js:18-21 | every character is a lower-case letter, an upper-case letter, a digit or another character, so a non-empty password meets at least one class |
| Validation.StrengthRange | frontend/src/utils/validation.js:10-24 | the empty password, and only it, scores 0; any other scores between 1 and 5 |
| Validation.StrengthMonotone | frontend/src/utils/validation.js:10-24 | appending characters never lowers the score |
| Validation.StrengthText | frontend/src/utils/validation.js:31-37 | the strength label; TextAndColorAgree and TextDecidesBand state that the label fixes the band of 1..5 |
| Validation.StrengthColor | frontend/src/utils/validation.js:44-50 | the strength colour; ColorDecidesBand and ColorInitial state that the colour fixes the band, one of five colours |
| Validation.TextAndColorAgree | frontend/src/utils/validation.js:31-50 | two strengths get the same label exactly when they get the same colour |
| Validation.Band | frontend/src/utils/validation.js:31-50 | the strength band that both the label and the colour follow is between 1 and 5 |
| Validation.TextDecidesBand | frontend/src/utils/validation.js:31-37 | two strengths get the same label exactly when they fall in the same band (at most 1, 2, 3, 4, at least 5) |
| Validation.ColorDecidesBand | frontend/src/utils/validation.js:44-50 | two strengths get the same colour exactly when they fall in the same band |
| Validation.ColorInitial | frontend/src/utils/validation.js:44-50 | the colour of each band is red, orange, yellow, blue or green |
| Validation.LetterBeforeBreakSingleLine | frontend/src/utils/validation.js:75 | on a text without line terminators, each lookahead of the pattern holds exactly when the text has a letter (a digit) |
| Validation.LettersAndNumbersHasBoth | frontend/src/utils/validation.js:75 | when the letters-and-numbers test passes, the text has a letter and a digit |
| Validation.BeforeBreakHas | frontend/src/utils/validation.js:75 | a lookahead that finds a letter (a digit) before a line terminator found one in the text |
| Validation.LettersAndNumbersSingleLine | frontend/src/utils/validation.js:75 | on a single line the test passes exactly when the text has a letter and a digit |
| Validation.ValidatePassword | frontend/src/utils/validation.js:66-83 | at most one error, valid exactly when there is none, valid exactly when the UTF-16 length is 10 to 32 and the letters-and-numbers test passes, and the empty password asks for a password |
| Validation.ValidPasswordNotWeak | frontend/src/utils/validation.js:10-37 | a password the form accepts scores at least 2 and is never labelled "Weak" (together with lines 66-83 of the same file) |
| Validation.NoLetterNoMatch | frontend/src/utils/validation.js:75 | a text without letters fails the letters-and-numbers test |
| Validation.LinesSeparate | frontend/src/utils/validation.js:75 | letters on a first line without digits and digits after a newline with no letters fail the test, as the `.` of the pattern does not cross lines |
| Validation.NoDigitBeforeBreak | frontend/src/utils/validation.js:75 | a first line without digits makes the digit lookahead fail at its start |
| Validation.ValidatePasswordConfirmation | frontend/src/utils/validation.js:91-104 | valid exactly when there is no error, exactly when the confirmation is non-empty and equal to the password; an empty confirmation asks for one |
| Courses.NonDigitPrefix | apps/web/models/course.py:16-17 | the `\D*` group is the longest prefix of the query without a digit |
| Courses.RunSearch | apps/web/models/course.py:27-70 | `CourseManager.search`; ClassifySearch, RunPlan, DepartmentOrTitleFallback and ShortNameFound state its branches and that a course's own short name finds it |
| Courses.ClassifySearch | apps/web/models/course.py:27-70 | the search gives no results exactly when the stripped department group is empty, and runs the faulty title filter exactly when that group is non-empty with a length other than 2, 3 or 4 |
| Courses.DigitPrefixAllDigits | apps/web/models/course.py:17-29 | the stripped number group consists of digits only |
| Courses.RunPlan | apps/web/models/course.py:38-70 | the search raises exactly for the title filter on the missing `title` field, returns only courses of the table, and returns nothing for an empty department group |
| Courses.DepartmentOrTitleFallback | apps/web/models/course.py:63-70 | a department-only search gives the courses of that department (case-insensitive), and falls back to the title search exactly when there are none |
| Courses.ZeroFill | apps/web/models/course.py:120 | zero-filling keeps the text at the end, pads with zeros in front and is as long as the width or the text |
| Courses.Pad3 | apps/web/models/course.py:120 | the `03d` format prints at least three characters |
| Courses.ShortName | apps/web/models/course.py:119-120 | the short name is the department followed by the zero-padded number, and formatting raises when the number is missing |
| Courses.ZerosValue | apps/web/models/course.py:120 | leading zeros do not change the value of a digit string |
| Courses.ZerosOnly | apps/web/models/course.py:120 | a string of zeros reads as 0 |
| Courses.ZeroFillValue | apps/web/models/course.py:120 | a zero-filled decimal text reads back as the number |
| Courses.Pad3Value | apps/web/models/course.py:120 | the padded number reads back as the number under int() |
| Courses.Pad3Width | apps/web/models/course.py:120 | numbers from 0 to 999 print as exactly three digits |
| Courses.NonDigitPrefixConcat | apps/web/models/course.py:17 | the department group of a digit-free text followed by a digit is that text |
| Courses.LetterOrDigitNotSpace | apps/web/models/course.py:29 | letters and digits are not whitespace, so stripping the groups keeps them |
| Courses.SearchGroupsOfSplit | apps/web/models/course.py:16-31 | the department and number groups of letters followed by digits are those letters and those digits |
| Courses.SearchGroupsOfShortName | apps/web/models/course.py:16-31 | searching a short name splits it back into its department and its padded number, which reads as the number (together with lines 119-120 of the same file) |
| Courses.ShortNameFound | apps/web/models/course.py:27-56 | searching a course's own short name runs the department-and-number query and finds that course (together with lines 119-120 of the same file) |
| Courses.OfferedTimes | apps/web/models/course.py:128-148 | the distinct periods of at most three characters among the term's offerings, followed by "other" exactly when some offering in the term has a longer period |
| Courses.PrefetchedIsOffered | apps/web/models/course.py:153-157 | true exactly when some offering is in the term |
| Courses.LastOffered | apps/web/models/course.py:159-171 | the last offering's term when there are offerings; otherwise the first median term with the greatest positive value, None when no value is positive, and an error when a winter median term makes the season lookup raise |
| Courses.ShortDescription | apps/web/models/course.py:173-175 | None exactly for an empty description |
| Courses.ShortDescriptionIsPrefix | apps/web/models/course.py:173-175 | the short description is a prefix of the description followed by "..."; the prefix is the whole description exactly when it has at most one ". " |
| Courses.DedupFrom | apps/web/models/course.py:200-206 | every kept instructor comes from the list and has an id not yet seen |
| Courses.DedupDistinct | apps/web/models/course.py:200-206 | no two kept instructors share an id |
| Courses.DistinctCons | apps/web/models/course.py:204-206 | an instructor with a new id can go before a list of distinct ids |
| Courses.DedupKeepsIds | apps/web/models/course.py:200-206 | the kept ids are exactly the ids of the list not seen before |
| Courses.DedupKeepsFirst | apps/web/models/course.py:200-206 | each kept instructor is the first occurrence of its id, so the first-occurrence order is kept |
| Courses.GetInstructors | apps/web/models/course.py:185-208 | the loops collect the term's instructors (all terms when the term is empty) and keep the first of each id, in order |
| Serializers.ValidateTerm | apps/web/serializers.py:74-83 | the upper-cased term is returned exactly when is_valid_term accepts it; a term it rejects gives the validation error |
| Serializers.ValidateTermIdempotent | apps/web/serializers.py:74-83 | an accepted term is accepted again, unchanged |
| Serializers.Capitalize | apps/web/serializers.py:94 | capitalising keeps the length |
| Serializers.CapitalizeIdempotent | apps/web/serializers.py:94 | capitalising twice is capitalising once |
| Serializers.CapitalizeKeepsSpaces | apps/web/serializers.py:94 | capitalising neither adds nor removes spaces |
| Serializers.CapitalizeAll | apps/web/serializers.py:94 | each part is capitalised and the number of parts kept |
| Serializers.ValidateProfessor | apps/web/serializers.py:85-94 | the name is rejected exactly when splitting on " " gives fewer than two parts, that is, when it has no space |
| Serializers.ValidateProfessorParts | apps/web/serializers.py:87-94 | an accepted name splits on " " into the capitalised parts of the input, so the part count is kept |
| Serializers.ValidateProfessorIdempotent | apps/web/serializers.py:85-94 | validating an accepted name again gives it back |
| Serializers.ValidateComments | apps/web/serializers.py:96-107 | the text is accepted exactly when it has at least the minimum length, and is returned unchanged |
| Serializers.GetShortDescription | apps/web/serializers.py:156-164 | None exactly for an empty description; a text of at most 300 characters is kept; a longer one becomes its first 300 characters and "..." |
| Serializers.Representation.constructor | apps/web/serializers.py:233 | the output dictionary holds the fields the serializer produced (together with line 172 of the same file) |
| Serializers.Representation.Pop | apps/web/serializers.py:238-243 | pop(key, None) removes the key whether or not it was there (together with lines 177-178 of the same file) |
| Serializers.Representation.Set | apps/web/serializers.py:181-182 | an assignment sets one key and keeps the others |
| Serializers.Representation.SearchToRepresentation | apps/web/serializers.py:171-184 | an anonymous request loses the two score fields, then the two summary fields are set; nothing else changes |
| Serializers.Representation.DetailToRepresentation | apps/web/serializers.py:232-245 | an anonymous request loses the six score and vote fields; nothing else changes |
| Serializers.DetailPops | apps/web/serializers.py:238-243 | the six pops in their order remove exactly the six detail fields |
| Serializers.MinusTwice | apps/web/serializers.py:238-243 | removing a set of keys and then one more removes their union |
| Serializers.Hidden | apps/web/serializers.py:237-243 | an authenticated request keeps the dictionary; an anonymous one has none of the score fields; every other field is kept with its value (together with lines 176-178 of the same file) |
| Serializers.VoteField | apps/web/serializers.py:292-306 | a vote field is shown only for an authenticated user whose vote in that category has a positive value, and is then that value; otherwise it is None |
| Serializers.WithdrawnVoteHidden | apps/web/serializers.py:296-304 | a withdrawn vote (value 0) shows as no vote |
| Serializers.NewNames | apps/web/serializers.py:279-289 | every added name is an instructor of an offering, not already listed and not seen |
| Serializers.NewNamesDistinct | apps/web/serializers.py:288 | no name is added twice |
| Serializers.NewNamesComplete | apps/web/serializers.py:279-289 | every instructor name not listed and not seen is added |
| Serializers.ProfessorsAndReviewCount | apps/web/serializers.py:270-290 | the reviewed professors come first, unchanged, followed by instructors not in that list, each with count 0 |
| Serializers.ProfessorsAndReviewCountComplete | apps/web/serializers.py:279-289 | every offering instructor appears in the result, and the added ones are distinct |
| Sorting.InsertDesc | apps/web/views.py:309 | inserting one item adds exactly that item |
| Sorting.InsertDescSorted | apps/web/views.py:309 | inserting into a list in descending key order keeps it in that order |
| Sorting.HeadBound | apps/web/views.py:309 | after inserting behind the head of a sorted list, no element has a key above the head's |
| Sorting.SortDesc | apps/web/views.py:371-385 | sorting keeps exactly the items, with their multiplicities (together with line 309 of the same file) |
| Sorting.SortDescSorted | apps/web/views.py:371-385 | the sorted list is in descending key order (together with line 309 of the same file) |
| Sorting.FilterSortedDesc | apps/web/views.py:309 | a filter of a sorted list is sorted |
| WebViews.SortField | apps/web/views.py:198-209 | the sort field is always an allowed one; it is the requested field when that is allowed, and course_code otherwise |
| WebViews.OrderByParts | apps/web/views.py:199-211 | the order_by argument is the sort field, with a leading "-" exactly when sort_order lower-cased is "desc" |
| WebViews.AnonymousSortIgnoresScores | apps/web/views.py:202-204 | a signed-out user is sorted by course_code or num_reviews only, whatever they ask for |
| WebViews.IntFilter | apps/web/views.py:182-195 | a minimum-score filter applies exactly for a signed-in user whose parameter is non-empty and accepted by int(), and then its bound is that integer |
| WebViews.TextFilter | apps/web/views.py:174-180 | a department or code filter applies exactly when its parameter is non-empty, with that text |
| WebViews.AnonymousFilterIgnoresScores | apps/web/views.py:182-195 | for a signed-out user the scores of a course never decide whether it is listed |
| WebViews.NumPages | apps/web/views.py:214 | there is at least one page, even for an empty listing, and the pages are just enough to hold the items |
| WebViews.DivBounds | apps/web/views.py:214 | the rounded-up quotient of the count by the page size is just enough pages |
| WebViews.ResolvePage | apps/web/views.py:215-219 | the page is the requested one when it is an integer within the pages, and page 1 otherwise |
| WebViews.PageBounds | apps/web/views.py:214-219 | a valid page starts within the listing, and every page but the last is full |
| WebViews.PageItems | apps/web/views.py:214-223 | the items of a page are the consecutive items from its start, at most one page of them, and a full page except for the last |
| WebViews.MulMonotone | apps/web/views.py:214 | multiplying by a natural number keeps the order |
| WebViews.DivOne | apps/web/views.py:214 | a count between the page size and twice it rounds down to one |
| WebViews.SinglePageListing | apps/web/views.py:214-219 | a listing that fits on one page is shown whole as page 1, whatever page was asked for |
| WebViews.CourseSearchApi | apps/web/views.py:300-304 | a query shorter than two characters after stripping gives an empty list |
| WebViews.ReorderedSame | apps/web/views.py:306-309 | reordering keeps the outcome and the courses, and sorts them by review count when asked to |
| WebViews.CourseSearchApiOrder | apps/web/views.py:300-309 | for a query of at least two characters the API fails exactly when the search does, returns the search's courses, and orders them by descending review count when the query is longer than four characters |
| WebViews.PriorCourse | apps/web/views.py:81-93 | the stored id is the prior course exactly when an id and a time are stored and the time plus ten minutes is not before now |
| WebViews.Session.constructor | apps/web/views.py:81-96 | a new session stores no prior course and no user id |
| WebViews.Session.GetPriorCourseId | apps/web/views.py:81-96 | reports the prior course of the stored values and always records the current id and time |
| WebViews.SecondVisitSeesFirst | apps/web/views.py:81-96 | a second course visited within ten minutes of the first reports the first |
| WebViews.LateVisitSeesNothing | apps/web/views.py:88-93 | a visit more than ten minutes later reports no prior course |
| WebViews.RemoveFirst | apps/web/views.py:150 | list.remove takes one occurrence of a present id off the list, and leaves a list without it unchanged |
| WebViews.RemoveFirstOfAppended | apps/web/views.py:118-150 | removing an id just appended to a list that lacked it gives back the list |
| WebViews.LoggedIn | apps/web/views.py:115-123 | a login from a session with an anonymous id appends it to the student's list, creating the student if absent; other students are untouched |
| WebViews.LoggedOut | apps/web/views.py:145-153 | a logout removes the session's id from the student's list when the student exists; other students are untouched |
| WebViews.LoginThenLogout | apps/web/views.py:115-153 | as intended: a logout that removes the anonymous id the login recorded gives back the student's ids when that id was not listed before, and the same multiset of ids in any case |
| WebViews.LogoutKeepsAnonymousId | apps/web/views.py:115-150 | as written: after a login stores the username as the session's id, the logout removes the username, so the anonymous id the login recorded stays on the list |
| WebViews.RemoveFirstKeeps | apps/web/views.py:150 | list.remove of one value keeps every other value of the list |
| WebViews.StudentTable.constructor | apps/web/models/student.py:34-38 | the table of students' anonymous session ids |
| WebViews.StudentTable.LoginApi | apps/web/views.py:102-135 | a missing email or password gives 400, failed authentication 401, an inactive account 403, and changes nothing; success records the anonymous id, replaces the session's id by the username and gives 200 |
| WebViews.StudentTable.LoginKeepingAnonymousId | apps/web/views.py:102-135 | as intended: the same answers and the same recorded id as LoginApi, with the session's anonymous id kept |
| WebViews.StudentTable.LogoutApi | apps/web/views.py:141-161 | a signed-out request gives 400 and changes nothing; otherwise the id the session holds is removed from the student's list when present, and the session is cleared |
| WebViews.LoginThenLogoutAsWritten | apps/web/views.py:102-161 | as written: a successful login then a logout of the same session leaves the anonymous id on the student's list |
| WebViews.LoginThenLogoutIntended | apps/web/views.py:102-161 | as intended: a successful login then a logout of the same session leaves the student's list as it was |
| WebViews.PyIntOfValue | apps/web/views.py:439 | int() of a JSON integer is that integer and of a string what int() reads; other values raise |
| WebViews.VoteCategory | apps/web/views.py:437 | the category is difficulty exactly when forLayup is truthy, and quality otherwise |
| WebViews.CourseVoteApi | apps/web/views.py:428-448 | a missing field gives 400 and changes nothing; otherwise the vote is cast by the vote manager as written (the row is saved and the voted category's score becomes the stale average before the vote), and the reply fails with 500 as the manager returns two values where three are unpacked |
| WebViews.FindGroup | apps/web/views.py:357 | the found group has the term; None means no group has it |
| WebViews.FilterOneRow | apps/web/views.py:356-367 | the rows of a term in a list with one more row gain that row exactly when it has the term |
| WebViews.AddToExistingGroup | apps/web/views.py:360-367 | appending a row to its term's group keeps the grouping |
| WebViews.AddNewGroup | apps/web/views.py:357-358 | opening a group for a new term keeps the grouping |
| WebViews.NewGroupFilters | apps/web/views.py:357-367 | after opening a group for a new term each group holds exactly the rows of its term, and none is empty |
| WebViews.NewGroupCovers | apps/web/views.py:357-358 | after opening a group for the new row's term, every row has a group |
| WebViews.AddToGroupKeeps | apps/web/views.py:356-367 | one step of the grouping keeps every term's group equal to its rows in order |
| WebViews.GroupByTerm | apps/web/views.py:355-367 | `medians_by_term`; GroupByTermGroups states one group per term, in order of first appearance, each the ordered filter of its rows, and GroupMedians computes it with a loop |
| WebViews.GroupByTermGroups | apps/web/views.py:355-367 | the grouping has one group per term present, of distinct terms, each holding exactly the rows of its term in their order |
| WebViews.GroupMedians | apps/web/views.py:355-367 | the grouping loop computes the grouping by term |
| WebViews.FirstKeyError | apps/web/views.py:383 | no error exactly when every term has a value |
| WebViews.SortMedians | apps/web/views.py:371-385 | sorting fails exactly when a term's value raises, and otherwise keeps the groups |
| WebViews.MediansResponse | apps/web/views.py:352-388 | the response lists every term once, latest term first, each with exactly its rows |
| Verifier.FindSessionSpec | apps/verifier/views.py:172-197 | a session found is the first key in order whose record is a JSON object in turnstile_verified with the stripped code; finding none means no readable record waits for the code |
| Verifier.SubmissionPromotesAtMostOne | apps/verifier/views.py:151-197 | a submission that does not raise changes nothing when no session matches, and otherwise rewrites exactly the one matched session to fully_verified with the code, name and student id |
| Verifier.RaisedStays | apps/verifier/views.py:211-213 | once a submission raised, the later ones change nothing and the writes made before stay |
| Verifier.SessionStore.constructor | apps/verifier/views.py:117-122 | an empty store of session records |
| Verifier.SessionStore.ResetSession | apps/verifier/views.py:317-332 | verify_page and verify_config delete the session's old record and nothing else (together with lines 66-74 of the same file) |
| Verifier.SessionStore.VerifyTurnstile | apps/verifier/views.py:86-126 | no token gives 400, a failed bot check or no session 403, and neither writes; success (200) exactly otherwise, storing the 8-digit code with status turnstile_verified |
| Verifier.SessionStore.ScanSubmission | apps/verifier/views.py:157-161 | the answer loop of a submission gives the last verification-code answer and the last student-id answer, stripped |
| Verifier.SessionStore.MatchSession | apps/verifier/views.py:172-197 | the key loop finds the first session waiting for the code |
| Verifier.SessionStore.Webhook | apps/verifier/views.py:129-213 | a non-POST request gives 405 and invalid JSON 400, writing nothing; otherwise the submissions are processed in order and the status is 200 when some submission matched, 404 when none did, and 500 when one raised |
| Verifier.SessionStore.CompleteLogin | apps/verifier/views.py:216-269 | non-POST gives 405; an unknown or empty session gives 404; the login proceeds exactly for a present session id whose record is an object in fully_verified with a truthy student id and name, and yields those two |
| Verifier.VerifiedSessionCanLogIn | apps/verifier/views.py:257-265 | a session the webhook has just verified passes the checks of complete_login with the submitted student id and name (together with lines 186-193 of the same file) |
| Verifier.WaitingSessionCannotLogIn | apps/verifier/views.py:257 | a session only waiting for its code cannot complete a login (together with line 121 of the same file) |
| Orc.ExtractPrerequisites | apps/spider/crawlers/orc.py:217-228 | the normalised prerequisite text never begins or ends with whitespace |
| Orc.StripPlain | apps/spider/crawlers/orc.py:220-226 | stripping text free of the five rewritten patterns leaves it free of them, and stripping again changes nothing |
| Orc.PlainPrerequisites | apps/spider/crawlers/orc.py:217-228 | text containing none of the five patterns is only stripped |
| Orc.HeadedPrerequisites | apps/spider/crawlers/orc.py:220 | a block beginning with the "Pre-requisites:" heading loses the heading and is stripped |
| Orc.IsDepartmentUrl | apps/spider/crawlers/orc.py:60-61 | the course-page test; DepartmentUrls states that course-info links pass and the listing page does not |
| Orc.DepartmentUrls | apps/spider/crawlers/orc.py:9-14 | every course-info link is taken as a course page and the listing page is not (together with lines 60-61 of the same file) |
| Orc.Department | apps/spider/crawlers/orc.py:134 | the department exists iff the code starts with two to four capitals followed by a digit, and is then exactly those capitals; otherwise the crawl raises |
| Orc.Number | apps/spider/crawlers/orc.py:135 | the number exists iff two to four capitals are followed by three digits, and is then those three digits; otherwise the crawl raises |
| Orc.Credits | apps/spider/crawlers/orc.py:146 | credits exist iff the text holds a digit, and are then the value of its first maximal digit run; otherwise the crawl raises |
| Orc.ParseHeading | apps/spider/crawlers/orc.py:130-136 | a heading parses exactly when its first part yields a department and a number and the separator occurs, and the result carries those parts |
| Orc.ScanErrStays | apps/spider/crawlers/orc.py:143-146 | a scan that raised on a block stays raised to the end |
| Orc.CreditsLastWins | apps/spider/crawlers/orc.py:143-146 | after a scan that does not raise, the credits are those of the last block naming "Credits" |
| Orc.NoCreditsBlock | apps/spider/crawlers/orc.py:138-146 | a page with no "Credits" block keeps zero credits |
| Orc.ScanBlock | apps/spider/crawlers/orc.py:144-162 | one pass of the loop: the first of "Credits", "Pre-requisites", "Description" the block contains sets that field |
| Orc.ScanPage | apps/spider/crawlers/orc.py:138-162 | the loop over the blocks computes the scan of all of them, stopping at a "Credits" block with no digits |
| Orc.CrawlCourse | apps/spider/crawlers/orc.py:111-176 | an empty heading gives no record; a record carries the parsed code, the page url and the credits of the scan |
| Orc.CrawledImportable | apps/spider/crawlers/orc.py:198-214 | every record the crawler builds has the key and all eight default fields import_department reads (together with lines 164-174 of the same file) |
| Orc.UpsertsRaise | apps/spider/crawlers/orc.py:198-214 | an import raises iff some item lacks the key or a default field |
| Orc.UpsertsLastWins | apps/spider/crawlers/orc.py:199-214 | the row of a course code holds the defaults of the last item with that code |
| Orc.UpsertsUntouched | apps/spider/crawlers/orc.py:199-214 | a code no item carries keeps its row or stays absent |
| Orc.UpsertsRaisedStays | apps/spider/crawlers/orc.py:199-214 | once an item raised, the later items change nothing |
| Orc.CourseTable.constructor | apps/spider/crawlers/orc.py:198 | an empty course table |
| Orc.CourseTable.ImportDepartment | apps/spider/crawlers/orc.py:198-214 | the loop leaves the table as the upserts of the items in order, and reports whether one raised |
| SpiderUtils.CleanDepartmentCode | apps/spider/utils.py:6-15 | the stripped, upper-cased code, with M&SS renamed QSS and WGST renamed WGSS and every other code kept |
| SpiderUtils.CleanIdempotent | apps/spider/utils.py:11-15 | cleaning a cleaned code changes nothing |
| SpiderUtils.IntOrNone | apps/spider/utils.py:17-18 | a missing or empty string gives None; any other string gives its integer and raises exactly when it is not one |
| SpiderUtils.IntOrNoneOfInt | apps/spider/utils.py:17-18 | the decimal text of an integer reads back as that integer |
| SpiderUtils.ParseNumberAndSubnumber | apps/spider/utils.py:25-31 | the assertion fails exactly for more than two dot-separated parts; otherwise the number is the first part's integer and a subnumber exists iff there was a dot |
| SpiderUtils.TooManyDotsIff | apps/spider/utils.py:26-30 | the assertion fails exactly when the text holds two or more dots |
| SpiderUtils.ParseNumberRoundTrip | apps/spider/utils.py:25-31 | `a.b` parses back to (a, b) and `a` to (a, None) |
| AuthUtils.PerAction | apps/auth/utils.py:21-40 | each of signup, login and reset_password gets its own setting, and any other action gets None |
| AuthUtils.GetSurveyUrl | apps/auth/utils.py:21-29 | the per-action survey URL; PerAction and SurveyLookupsOnlyForActions state the three actions and None otherwise |
| AuthUtils.GetSurveyApiKey | apps/auth/utils.py:32-40 | the per-action API key; PerAction and SurveyLookupsOnlyForActions state the three actions and None otherwise |
| AuthUtils.SurveyLookupsOnlyForActions | apps/auth/utils.py:21-58 | for an unknown action the survey URL, the API key and the question id are all None |
| AuthUtils.GetSurveyQuestionId | apps/auth/utils.py:43-58 | the per-action question id; QuestionIdParsing states None for an unset or non-integer id and the integer otherwise |
| AuthUtils.QuestionIdParsing | apps/auth/utils.py:43-58 | an unset or empty id and one that is not an integer give None, and the decimal text of an integer gives that integer |
| AuthUtils.ClassSingleLine | apps/auth/utils.py:214-215 | on one line, a lookahead `(?=.*[class])` holds iff some character is in the class |
| AuthUtils.StrengthPatternSingleLine | apps/auth/utils.py:214-215 | a one-line password matches the pattern iff it has a lower-case letter, an upper-case letter and a digit |
| AuthUtils.ValidatePasswordStrength | apps/auth/utils.py:200-225 | valid iff no error; shorter than the minimum gives the length error, a missing character class the class error, and otherwise validity is exactly the framework validators finding nothing |
| AuthUtils.ClassBeforeNewlineHas | apps/auth/utils.py:214-215 | whenever the lookahead holds, the password has a character of that class |
| AuthUtils.AcceptedPasswordIsGood | apps/auth/utils.py:200-225 | a password the server accepts that is at least 10 characters long rates at least "Good" on the strength meter (together with frontend/src/utils/validation.js lines 57-83) |
| AuthUtils.OtpIsFirstMatch | apps/auth/utils.py:164-169 | with no answer for the question the otp is None; otherwise it is the answer of the first answer whose question id matches |
| AuthUtils.FindOtp | apps/auth/utils.py:164-169 | the loop over the answers returns the otp of the first matching answer |
| AuthUtils.LatestAnswer | apps/auth/utils.py:92-197 | no API key gives 400; a result carries four non-None fields, id and submitted_at taken from the first row of a successful reply |
| AuthUtils.UnknownActionBeforeRequest | apps/auth/utils.py:101-103 | an unknown action is refused with 400 whatever the questionnaire would reply |
| AuthUtils.NoRowsForbidden | apps/auth/utils.py:155-197 | a reply without success or without rows is answered with 403 |
| AuthUtils.GetLatestAnswer | apps/auth/utils.py:92-197 | the steps of get_latest_answer, the answer loop included, compute the latest-answer result |
| SpiderManager.LoadDumps | apps/spider/manager.py:82-89 | loading the dumped lines of items that each load back gives the items, in order |
| SpiderManager.FrameLoads | apps/spider/manager.py:82-89 | the file written for items that load back reads back as those items (together with lines 38-45 of the same file) |
| SpiderManager.SaveLoadRoundTrip | apps/spider/manager.py:30-48 | for a JSON codec whose dumps are one line and load back, loading a saved list gives the list and loading any other saved value gives a one-item list (together with lines 82-89 of the same file) |
| SpiderManager.SaveContentFrame | apps/spider/manager.py:38-45 | a list is written one item per line and any other value as a single line |
| SpiderManager.LoadNoneStays | apps/spider/manager.py:86-88 | once a non-blank line fails to parse, loading the whole file fails |
| SpiderManager.Cache.constructor | apps/spider/manager.py:23-28 | an empty cache directory |
| SpiderManager.Cache.SaveToJsonl | apps/spider/manager.py:30-48 | overwrites `<data_type>.jsonl` with the framed data, leaves every other file, and returns that name |
| SpiderManager.Cache.LoadFromJsonl | apps/spider/manager.py:82-89 | a missing file fails; otherwise the values of the non-blank lines, failing when one does not parse |
| SpiderManager.Cache.FlattenPrerequisites | apps/spider/manager.py:73-76 | the doubly nested loop lists every course's records, course after course |
| SpiderManager.Cache.SaveCourseselData | apps/spider/manager.py:50-80 | each of the three inputs is saved, under its own key and file name, exactly when it is truthy, and the cache changes only by those files |
| SpiderManager.Cache.CacheInfo | apps/spider/manager.py:97-111 | for a file that loads, its record count and its first three records as the preview |
| SpiderManager.SavedPrerequisitesLoad | apps/spider/manager.py:70-89 | a saved prerequisite file reads back as the flattened records |
| SpiderManager.SavedCatalogLoads | apps/spider/manager.py:60-89 | a saved dict catalog reads back as its values in order |
| SpiderManager.DistinctNames | apps/spider/manager.py:56-77 | the three course-selection files never overwrite one another |
| SpiderManager.Preview | apps/spider/manager.py:110 | the preview is the first three records, or all of them when there are fewer |
| SpiderManager.MenuOf | apps/spider/manager.py:149-166 | "q" quits; a number from 1 to the file count selects the file before it; anything else asks again |
| SpiderManager.MenuChoiceOfNumber | apps/spider/manager.py:132-161 | typing the number listed beside a file selects that file |
| SpiderManager.ChoiceOf | apps/spider/manager.py:606-631 | a non-integer is invalid input; 1 to n views that file, n + 1 integrates the data, and any other number is an invalid choice |
| SpiderManager.WorkflowNumbers | apps/spider/manager.py:598-626 | typing a file's number views it, and the number after the last integrates all |
| SpiderManager.SelectedMembers | apps/spider/manager.py:474-479 | an API is selected exactly when it is 1, 2 or 3 and one of the pieces |
| SpiderManager.ApiSelection | apps/spider/manager.py:465-479 | the selection holds only APIs 1 to 3, and "4" selects all three |
| SpiderManager.ParseApiChoice | apps/spider/manager.py:465-479 | the branch on "4" and the loop over the comma pieces compute the selection |
| SpiderManager.SelectValid | apps/spider/manager.py:474-479 | the loop keeps every stripped piece that names a valid API |
| SpiderManager.CourseselPlan | apps/spider/manager.py:446-483 | an empty JSESSIONID cancels, then an empty selection cancels, and otherwise exactly the selected APIs are crawled |
| SpiderManager.CommaSeparated | apps/spider/manager.py:471-477 | two APIs separated by an ASCII comma select exactly those two |
| SpiderManager.FullwidthCommaIgnored | apps/spider/manager.py:470-477 | as written, two APIs separated by a full-width comma select nothing |
| SpiderManager.ApiSelectionIntended | apps/spider/manager.py:465-479 | the selection with the full-width comma read as a separator still holds only APIs 1 to 3, and "4" selects all |
| SpiderManager.FullwidthCommaIntended | apps/spider/manager.py:470-477 | read as the comment intends, two APIs separated by a full-width comma select exactly those two |
| SpiderManager.TypeOfFile | apps/spider/manager.py:580-589 | the first marker the name contains decides: lesson tasks, then catalog, and integrated exactly when none of the four markers occurs |
| SpiderManager.UnmarkedIsIntegrated | apps/spider/manager.py:588-589 | a name carrying no marker is integrated data |
| SpiderManager.SavedFilesClassify | apps/spider/manager.py:580-589 | each file the spider saves is classified as the kind of data it holds (together with lines 56, 67, 77, 552, 700 of the same file) |
| SpiderManager.IndicesSound | apps/spider/manager.py:578-593 | every position grouped under a type holds a file of that type |
| SpiderManager.IndicesComplete | apps/spider/manager.py:578-593 | every file of a type is grouped under it |
| SpiderManager.IndicesIncreasing | apps/spider/manager.py:578-593 | within a group the files keep their listing order |
| SpiderManager.IndicesAbsent | apps/spider/manager.py:591-593 | a type with no file has no positions |
| SpiderManager.GroupFiles | apps/spider/manager.py:577-593 | the groups exist exactly for the types present, each holding the positions of its files in order |
| SpiderManager.KeyBy | apps/spider/manager.py:661-663 | the catalog dict; KeyByKeys and KeyByLastWins state its keys and that the last record per id wins |
| SpiderManager.KeyByKeys | apps/spider/manager.py:661-663 | the catalog keys are exactly the truthy course ids of the records |
| SpiderManager.KeyByLastWins | apps/spider/manager.py:661-663 | a course id maps to the last record carrying it |
| SpiderManager.Regroup | apps/spider/manager.py:669-673 | the prerequisite groups; RegroupKeys, RegroupGroups, RegroupSpec and RegroupFlatten state its keys, its ordered groups and that it inverts flattening |
| SpiderManager.RegroupKeys | apps/spider/manager.py:669-673 | the prerequisite groups exist exactly for the truthy course ids |
| SpiderManager.RegroupGroups | apps/spider/manager.py:669-673 | each group holds that course's records in file order |
| SpiderManager.RegroupSpec | apps/spider/manager.py:669-673 | records without a course id are dropped and each group is the ordered filter of the records by its id |
| SpiderManager.FilterFlatten | apps/spider/manager.py:669-673 | filtering the saved records by one course's id gives back that course's list (together with lines 73-76 of the same file) |
| SpiderManager.RegroupFlatten | apps/spider/manager.py:665-673 | regrouping saved prerequisites restores every non-empty course list with a truthy key (together with lines 70-78 of the same file) |
| SpiderManager.LoadAllNoneStays | apps/spider/manager.py:652-681 | a file that fails to load aborts the whole collection |
| SpiderManager.PrerequisitesRegrouped | apps/spider/manager.py:652-674 | the collected prerequisites are those of the last prerequisites file, grouped by truthy course id in order |
| SpiderManager.PrerequisitesLast | apps/spider/manager.py:665-674 | the last prerequisites file replaces what earlier ones collected |
| SpiderManager.LoadForIntegration | apps/spider/manager.py:642-681 | the loop over the cache files collects what loading each file in listing order gives |
| CrawledData.HasChange | apps/spider/models.py:68-69 | pending data differs from current data (structurally, see Values.Value under Left out); ReviewOrderSpec, EmailChange and HandleSpec use it |
| CrawledData.ReviewOrder | apps/spider/models.py:38-40 | the review list; ReviewOrderSpec states that it is a permutation with changed rows first, each group newest first |
| CrawledData.ReviewOrderSpec | apps/spider/models.py:38-40 | the review list is a permutation of the rows with every changed row before every unchanged one, each group newest first |
| CrawledData.GroupsInOrder | apps/spider/models.py:40 | joining the changed rows and the unchanged rows, each sorted newest first, keeps both orders |
| CrawledData.DiffOfUnchanged | apps/spider/models.py:71-81 | because the bound method `has_change` is always truthy, a row with data but no change still gets a unified diff, of its data with itself |
| CrawledData.AdminEmails | apps/spider/models.py:97 | the recipients are the admins' addresses, one per admin in order |
| CrawledData.EmailChange | apps/spider/models.py:87-99 | the mail is sent exactly when the row has a change, with the diff as body and every admin as recipient |
| CrawledData.FindResource | apps/spider/models.py:16-54 | the row found carries the resource, and none is found only when no row carries it |
| CrawledData.UpdateOrCreateSpec | apps/spider/models.py:16-60 | the upsert fails exactly when another data type owns the resource; otherwise it keeps resources unique, inserts iff the resource is new, sets pending data and the update time of that row only, and keeps its current data |
| CrawledData.Handle | apps/spider/models.py:11-36 | `handle_new_crawled_data`; HandleSpec, HandleAgain and CrawledTable.HandleNewCrawledData state its branches, its repeatability and the table method that computes it |
| CrawledData.HandleSpec | apps/spider/models.py:11-36 | a conflicting resource answers False and changes nothing; otherwise the call raises iff it inserts null data, answers True iff the new data differs from the current data, and queues the import iff auto-import is on and it answered True (together with lines 87-104 of the same file) |
| CrawledData.FindUnique | apps/spider/models.py:54 | with unique resources, a row's resource finds that row |
| CrawledData.HandleAgain | apps/spider/models.py:11-36 | handling the same data a second time gives the same answer |
| CrawledData.CrawledTable.constructor | apps/spider/models.py:43-60 | an empty table whose first primary key is 1 |
| CrawledData.CrawledTable.HandleNewCrawledData | apps/spider/models.py:11-36 | the table, the next key, the answer and the side effects are those of handling the data, and the resources stay unique |
| CourseBrowser.QueryRoundTrip | frontend/src/composables/useCourses.js:76-118 | a state the URL can carry (trimmed code, no falsy min_quality, non-empty sort fields, a page number) is read back unchanged from the query it writes, min_difficulty untouched |
| CourseBrowser.QualityRoundTrip | frontend/src/composables/useCourses.js:80-114 | a null or truthy min_quality survives the trip through its decimal text |
| CourseBrowser.PageRoundTrip | frontend/src/composables/useCourses.js:85-117 | a page of at least one survives the trip, page 1 being left out of the query |
| CourseBrowser.AnonymousQueryDropsQuality | frontend/src/composables/useCourses.js:80 | without authentication the query never carries min_quality |
| CourseBrowser.SyncEmptyIsReset | frontend/src/composables/useCourses.js:93-118 | reading an empty query gives the reset filters except min_difficulty, the default sorting and page 1 |
| CourseBrowser.QueryEmptyIff | frontend/src/composables/useCourses.js:76-87 | the query is empty iff department and code are empty, min_quality is not both set and shown, the sorting is (course_code, asc) and the page is not above 1 |
| CourseBrowser.ResetQueryEmpty | frontend/src/composables/useCourses.js:76-101 | a reset state writes the empty query |
| CourseBrowser.CourseBrowser.constructor | frontend/src/composables/useCourses.js:9-26 | page 1 of 1 with 0 courses and 20 per page, empty filters and (course_code, asc) sorting |
| CourseBrowser.CourseBrowser.GetQueryObject | frontend/src/composables/useCourses.js:76-87 | the query built key by key is the query object of the current state |
| CourseBrowser.CourseBrowser.ApplyFiltersAndSort | frontend/src/composables/useCourses.js:89-91 | moves to page 1 and changes nothing else |
| CourseBrowser.CourseBrowser.ResetFiltersAndSort | frontend/src/composables/useCourses.js:93-101 | empty filters, sorting (course_code, asc) and page 1, leaving the other pagination fields |
| CourseBrowser.CourseBrowser.ChangePage | frontend/src/composables/useCourses.js:103-107 | takes the new page iff it is between 1 and total_pages, and otherwise changes nothing |
| CourseBrowser.CourseBrowser.SyncStateFromQuery | frontend/src/composables/useCourses.js:109-118 | filters, sorting and page are read from the query with their fallbacks, and min_difficulty is kept |
| AuthState.GetAuthState | frontend/src/utils/auth.js:9-71 | a state is returned only when one of the five places applies, and it is tagged with the first place, in the fixed order, whose condition holds |
| AuthState.GetAuthStateNull | frontend/src/utils/auth.js:9-71 | null exactly when no place applies or the stored text of the first place that applies does not parse; the two URL places never give null |
| AuthState.SaveThenGet | frontend/src/utils/auth.js:94-108 | without a verified URL, a saved state is read back as itself, tagged localStorage when persistent and sessionStorage otherwise (together with lines 46-57 of the same file) |
| AuthState.ClearThenGet | frontend/src/utils/auth.js:45-87 | after clearing, only a verified URL can bring a state back |
| AuthState.IsAuthStateValid | frontend/src/utils/auth.js:115-123 | valid iff a state exists, its action is the one asked, its status is verified, and its expiry is JavaScript-falsy (null, false, 0, "" or absent) or `parseInt` of it is a number after now |
| AuthState.ValidAfterSave | frontend/src/utils/auth.js:94-123 | a verified state saved for an action without expiry is valid for that action and for no other |
| AuthState.ExpiredUrlStateInvalid | frontend/src/utils/auth.js:13-26 | a callback URL whose expiry has passed gives no valid state (together with line 121 of the same file) |
| AuthState.ExpiredInvalid | frontend/src/utils/auth.js:121 | a state whose expiry is not after now is not valid |
| AuthState.ExpiryTime | frontend/src/utils/auth.js:121 | `parseInt(state.expires_at)` converts the value with `String()` and reads it with no radix; a JSON integer reads back as itself |
| AuthState.EmptyContainerExpiryInvalid | frontend/src/utils/auth.js:121 | an expiry of `[]` or `{}` is truthy and reads as NaN, so the state is not valid |
| AuthState.SingletonExpiry | frontend/src/utils/auth.js:121 | an expiry `[n]` reads as n, as `String([n])` is the text of n |
| AuthState.HexExpiryValid | frontend/src/utils/auth.js:121 | an expiry text `0x` followed by hexadecimal digits is read in base 16: the state is valid exactly while now is before that value |
| Strs.JsParseIntNoRadixOfIntToString | frontend/src/utils/auth.js:121 | `parseInt` with no radix reads the decimal text of every integer back as that integer |
| Strs.JsParseIntNoRadixHex | frontend/src/utils/auth.js:121 | `parseInt("0x" + t)` is the hexadecimal value of the digits t, and NaN when t is empty |
| Strs.HexDiffersFromDecimal | frontend/src/utils/auth.js:121 | with no radix `"0x10"` reads as 16, where radix 10 (as in useCourses.js) reads 0 |
| AuthState.BrowserStorage.constructor | frontend/src/utils/auth.js:46-53 | the two storages as given |
| AuthState.BrowserStorage.SaveAuthState | frontend/src/utils/auth.js:94-108 | the state without its source is written to sessionStorage always and to localStorage iff persistent, and nothing else changes |
| AuthState.BrowserStorage.ClearAuthState | frontend/src/utils/auth.js:76-87 | exactly the four localStorage keys and the two sessionStorage keys are removed |
| AuthHandshake.Base64Encode | apps/auth/views.py:97 | standard base64 gives four characters per three bytes and a length that is a multiple of four |
| AuthHandshake.DecodeEncode | apps/auth/views.py:97 | whole groups of base64 decode back to the bytes they encode |
| AuthHandshake.OtpShape | apps/auth/views.py:96-97 | the OTP of six random bytes is eight base64 characters without padding, and two OTPs agree only for the same bytes |
| AuthHandshake.KeysDistinct | apps/auth/views.py:203 | the OTP, state and attempt keys never collide, and each kind of key determines its suffix (together with lines 124, 130, 183 of the same file) |
| AuthHandshake.InitiateResult | apps/auth/views.py:45-157 | `auth_initiate_api`; InitiateOutcome, InitiateStores and InitiateKeepsOtpKeys state its responses, its writes and the key invariant |
| AuthHandshake.InitiateOutcome | apps/auth/views.py:45-157 | 400 exactly for a missing action or token or an unknown action; a refusal or failed bot check writes nothing; past them the writes are the clean-up, the OTP record and the pending state; 200 exactly when the action also has a survey URL, with the OTP in the body and the temp token set as cookie |
| AuthHandshake.InitiateStores | apps/auth/views.py:104-133 | the OTP key holds the token and start time, the new state key is pending for the action, a readable old state of the cookie is gone, and no other key changes |
| AuthHandshake.InitiateKeepsOtpKeys | apps/auth/views.py:96-124 | every OTP key in the store names an eight-character OTP, before and after initiate |
| AuthHandshake.VerifyPrecheck | apps/auth/views.py:167-199 | the checks pass exactly for account, answer_id and action all given, a cookie token, and a readable pending state for the same action; failures answer 400, 401 or 403 |
| AuthHandshake.Incr | apps/auth/views.py:206 | a missing counter becomes 1 and an existing one goes up by one; a value that is not a counter raises |
| AuthHandshake.OtpCheck | apps/auth/views.py:230-264 | the OTP record passes exactly when it exists, is readable, names the cookie's token, has a start time, and the submission time lies within the window after it; every failure is 401 |
| AuthHandshake.LatestAnswerCodes | apps/auth/utils.py:92-197 | the questionnaire query only ever fails with an error status |
| AuthHandshake.FinishStore | apps/auth/views.py:266-319 | the end of verify writes only the state key and the attempt counter's removal, and a 200 leaves the state verified for the account or deleted after a login |
| AuthHandshake.VerifyWith | apps/auth/views.py:160-319 | `verify_callback_api` for a given code field; VerifySucceeds, VerifyReplayRejected, VerifyRateLimited, VerifyConsumesOtp and VerifyAsWrittenNeverSucceeds state its success conditions, replay refusal, rate limit, OTP consumption and the as-written failure |
| AuthHandshake.VerifySucceeds | apps/auth/views.py:160-319 | a 200 needs the state checks, the questionnaire answer, and an OTP record that passed its checks; that record is then gone and the state is verified |
| AuthHandshake.VerifyReplayRejected | apps/auth/views.py:195-230 | once a token is verified, no later request with it can be verified again |
| AuthHandshake.VerifiedBlocksPrecheck | apps/auth/views.py:195-196 | a verified state, or one a login deleted, fails the pending check (together with line 302 of the same file) |
| AuthHandshake.PrecheckBlocksVerify | apps/auth/views.py:171-199 | a request failing the state checks never gets a 200 |
| AuthHandshake.VerifyRateLimited | apps/auth/views.py:202-212 | beyond the attempt limit the answer is 429, only the counter changes, and every OTP record stays |
| AuthHandshake.VerifyConsumesOtp | apps/auth/views.py:222-233 | within the limit and with the right answer id, the submitted OTP's record is gone afterwards, whatever follows |
| AuthHandshake.VerifyClearsCounterOnlyOnSuccess | apps/auth/views.py:206-279 | the attempt counter disappears only when the OTP checks passed |
| AuthHandshake.AnswerLacksCode | apps/auth/views.py:226 | the answer has no verification_code field, so the view as written looks up `otp:None` (together with apps/auth/utils.py lines 172-179) |
| AuthHandshake.NoneKeyAbsent | apps/auth/views.py:96-124 | `otp:None` is never written, since every OTP has eight characters |
| AuthHandshake.VerifyAsWrittenNeverSucceeds | apps/auth/views.py:226-233 | as written, verify never answers 200 |
| AuthHandshake.InitiateWrites | apps/auth/views.py:95-133 | past the checks, initiate leaves exactly the writes described |
| AuthHandshake.FinishSucceeds | apps/auth/views.py:266-319 | the end of verify answers 200 unless a login has no session or finds the user inactive |
| AuthHandshake.VerifyFromReady | apps/auth/views.py:160-319 | as intended (code read from `otp`): a pending token with its OTP record and no attempts, submitted with its OTP in time, is verified; as written the code is read from `verification_code` and no submission verifies (VerifyAsWrittenNeverSucceeds) |
| AuthHandshake.FreshOtpPasses | apps/auth/views.py:235-260 | the record initiate wrote passes the OTP checks for its own token within the window (together with lines 123-124 of the same file) |
| AuthHandshake.InitiateThenVerify | apps/auth/views.py:45-319 | reading the code from the answer's otp field, a successful initiate followed by a timely submission of its OTP is verified |
| AuthHandshake.PsdCheck | apps/auth/views.py:322-363 | the grant is given exactly for a cookie token whose readable state is verified for the action, a non-empty password that passes the strength check, and an account in the state, and then names those three |
| AuthHandshake.SignupResult | apps/auth/views.py:366-402 | `auth_signup_api`; SignupSucceeds and SignupRefusesExisting state the effect of a 200 and the 409 with no change |
| AuthHandshake.SignupSucceeds | apps/auth/views.py:366-402 | a 200 from signup means the check passed, the user has the password and is active, had no password before, and the state record and cookie are gone |
| AuthHandshake.SignupGrantedSucceeds | apps/auth/views.py:377-398 | once granted, a 200 means the user has the password, is active, and the state record is gone |
| AuthHandshake.SignupRefusesExisting | apps/auth/views.py:385-386 | a user who already has a password is refused with 409 and nothing changes |
| AuthHandshake.ResetResult | apps/auth/views.py:405-440 | `auth_reset_password_api`; ResetSucceeds states that a 200 changes only that user's password |
| AuthHandshake.ResetSucceeds | apps/auth/views.py:405-440 | a 200 from reset means the check passed and only the existing user's password changed, and the state record is gone |
| AuthHandshake.ResetGrantedSucceeds | apps/auth/views.py:418-436 | once granted, a 200 means only the existing user's password changed and the state record is gone |
| AuthHandshake.GrantIsPerAction | apps/auth/views.py:347-348 | a token cannot be granted for both signup and reset |
| AuthHandshake.PendingCannotSetPassword | apps/auth/views.py:347-348 | a token that has only been initiated cannot set a password (together with line 128 of the same file) |
| AuthHandshake.VerifyTouches | apps/auth/views.py:160-319 | verify adds no key but the cookie token's state and attempt counter, and without a cookie changes nothing |
| AuthHandshake.VerifyKeepsOtpKeys | apps/auth/views.py:160-319 | verify keeps every OTP key well formed |
| AuthHandshake.AuthStore.constructor | apps/auth/views.py:102 | an empty key-value store over the given users |
| AuthHandshake.AuthStore.Initiate | apps/auth/views.py:45-157 | the store and the response are those of initiate, and the users are unchanged |
| AuthHandshake.AuthStore.WriteOtp | apps/auth/views.py:104-133 | the clean-up and the two writes of initiate |
| AuthHandshake.AuthStore.VerifyCallback | apps/auth/views.py:160-319 | as written: store, users and response are those of verify reading the code from `verification_code`; with well-formed OTP keys it never answers 200 |
| AuthHandshake.AuthStore.AfterCount | apps/auth/views.py:211-319 | as written: store, users and response after the attempt is counted, the OTP looked up under the `verification_code` field |
| AuthHandshake.AuthStore.Finish | apps/auth/views.py:266-319 | store, users and response of the successful end of verify |
| AuthHandshake.AuthStore.Signup | apps/auth/views.py:366-402 | store, users and response are those of signup |
| AuthHandshake.AuthStore.ResetPassword | apps/auth/views.py:405-440 | store, users and response are those of reset |

## Left out

- Network clients: the Turnstile and questionnaire HTTP calls, and the unused helper `verify_turnstile_token` (apps/auth/utils.py:61-89). Their replies are inputs.
- Redis: TTLs and expiry, `expire`, and the atomicity of `incr` and `getdel`. Each request is one atomic method over a map.
- The verifier's polling loop with `time.sleep` (apps/verifier/views.py:40-56): it depends on timing.
- Randomness and hashing: `secrets.token_bytes`, `token_urlsafe` and `random` values are parameters. SHA-256 is a function parameter; the lemmas hold for every such function, so no property of the hash is assumed.
- Clocks and date parsing: `time.time()`, `timezone.now()` and `dateutil` parsing are integer timestamps passed in.
- Serializers.ValidateProfessor, Serializers.ValidateTerm, Serializers.ValidateComments: the review fields are DRF `CharField`s, which strip surrounding whitespace before a `validate_*` method runs. The validators are modelled on the text they receive, already stripped, so `"John "` is accepted by the model's validator while the endpoint rejects it.
- Django and DRF internals: `login`, `authenticate`, `set_password` hashing, sessions, the ORM and the serializer machinery. The password validators are a function from a password to its error messages.
- `create_user_session` (apps/auth/utils.py:228-263): the `user_id` session write, the `Student` get-or-create and the session-key creation are left out. Only the user table and the success flag remain.
- AuthHandshake.AuthStore: no invariant over the store is kept as a class predicate. Well-formed OTP keys are proved per operation instead (`InitiateKeepsOtpKeys`, `VerifyKeepsOtpKeys`).
- Floating point: `round(..., 1)` in the vote averages and the migration. Averages are exact rationals (`Mean(sum, count)`).
- Other float-only output: the front-end strength percentage `getPasswordStrengthPercentage` (frontend/src/utils/validation.js:57-59) and the KB size strings of `get_cache_info` (apps/spider/manager.py:105).
- The median averages of `medians` (apps/web/views.py:375-378), which are floats.
- `group_courses_with_votes` and `authenticated_group_courses_with_votes` (apps/web/models/vote.py:53-70): view-side grouping joined to the vote table. They are not part of this model.
- `Review.objects.with_votes`: not defined by `ReviewManager`, and no file of the repository defines it. The corrected review vote reads the counts as the annotation would give them.
- `CourseSelCrawler`: not defined in apps/spider/crawlers/orc.py. The crawl and integration steps that call it, `_integrate_course_data` included, are not part of this model. Both `crawl_coursesel_workflow` and `integrate_and_import_data` import it as their first statement (apps/spider/manager.py:436, :636), so as written both raise ImportError before anything else runs. The API-choice prompt (SpiderManager.ParseApiChoice, SpiderManager.CourseselPlan, and the full-width comma finding) and the collection of cached data (SpiderManager.LoadForIntegration, SpiderManager.PrerequisitesRegrouped) model the code that follows the import; it can run only once that class exists.
- Courses.RunPlan: the `order_by("number")` of the department-only match (apps/web/models/course.py:63-65) is not modelled. The result is in table order, so the model does not promise that a department match is ordered by number (with the database's placement of missing numbers).
- Courses.OfferedTimes: the order of `list(set(...))` is Python's set iteration order. The model states the elements without duplicates, not their order.
- Scraping: BeautifulSoup DOM walking in `_crawl_course_data`. The heading, the text blocks and the topic items are inputs.
- Orc.CrawlCourse: the course-topics list and the description text come from DOM nodes, so they are taken as inputs without further property. Only the code, URL and credits are tied to the parsed page.
- File I/O and terminal menus: directory listing, mtimes, unlink, `input()` and `print`. The cache directory is a map from file name to text, and answers to prompts are string parameters.
- `json.dumps`, `pretty_json` and `difflib.unified_diff` are abstract: a codec for the JSONL files, and symbolic diff values.
- SpiderUtils.CleanDepartmentCode: `HTMLParser().unescape` was removed in Python 3.9, so on Python 3.9 and later every call of `clean_department_code` raises AttributeError (apps/spider/utils.py:12). The model returns the cleaned code, as on older versions, and leaves out the HTML unescaping itself.
- Case mapping, whitespace and digit classes are ASCII-only in `Strs`. Python and JavaScript use full Unicode tables.
- Strs.PyInt: Python's `int()` also accepts single underscores between digits (`"1_0"` is 10). The model gives None for them, so `?min_quality=1_0` is ignored by WebViews.IntFilter where the source filters, and SpiderUtils.IntOrNone, the Config.Settings.Get int cast, WebViews.PyIntOfValue and the SpiderManager menu choice reject such text where the source accepts it.
- Values.Value: JSON and YAML values have no float case, and equality and map keys are structural, not Python's (where `True == 1 == 1.0` and equal values hash alike). Members this affects: WebViews.PyIntOfValue cannot receive a JSON float, which `int()` truncates (`4.7` is 4, `4.0` is 4) in `course_vote_api` (apps/web/views.py:439); the Config.Settings.Get casts never see a YAML float; CrawledData.HasChange reports a change for `{"a": True}` against `{"a": 1}`, which Python's `!=` calls equal.
- KeyByKeys: the catalog keys of SpiderManager.KeyBy are compared structurally, so the model keeps `True` and `1` as two keys where the Python dict merges them, and it accepts a list or dict `courseId` as a key where Python raises TypeError (unhashable).
- RegroupKeys: the same holds for the groups of SpiderManager.Regroup. Python merges `True` and `1` into one group and raises TypeError for a list or dict `courseId`; the model does neither.
- HandleSpec: the change test of CrawledData.Handle is structural inequality (see Values.Value), so a row whose data differs only as `True` against `1` counts as changed in the model and unchanged in the source.
- Values.PyStr: `str()` of a list or a dict is a fixed placeholder (`"[...]"`, `"{...}"`), not Python's repr. Members that apply it to such values can treat two different lists or dicts as equal where the source tells them apart: Logging.SanitizeValue of a list or dict message, the answer-id comparison of AuthHandshake.VerifyCounted (two different list ids pass where the source answers 403), the user name taken from a dict `account` in AuthHandshake.CreateUserSession and the password endpoints, and the question-id match of AuthUtils.OtpOf.
- JavaScript string lengths count UTF-16 code units. The model counts characters above U+FFFF twice (`Validation.Utf16Length`); rendering and normalisation are left out.
- Start-up configuration: the module-level `CURRENT_TERM` and the settings constants (`OTP_TIME_OUT`, `TOKEN_RATE_LIMIT`, `PASSWORD_LENGTH_MIN`, `ACTION_LIST`, the questionnaire settings) are parameters.
- Config.MergeInto: `_deep_merge` stores the new sub-dictionary itself (`base[key] = value`, website/config.py:51) and later merges change it in place. The model merges values, so a dictionary shared between two keys (a YAML anchor and alias) or with the caller's `DEFAULTS` is not modelled: in the source an environment override of one key also changes the other key and the caller's defaults.
- Config.DeepMerge: a merged value is a copy. The sharing described under Config.MergeInto is not modelled.
- Config.Precedence: the YAML value of a key that shares its dictionary with an environment-overridden key (through an anchor) is changed in the source. The model keeps the YAML value. See Config.MergeInto.
- Config.Settings.constructor: the layered configuration is built without the sharing of sub-dictionaries described under Config.MergeInto.
- Config.Load: yields the layered configuration without that sharing. See Config.MergeInto.
- Config.Settings.Get: the `list` cast of a dict gives the dict's keys in insertion order. Map keys carry no order, so this case is an explicit `ListOfDictNotModelled` error.
- The `"userID"` session key written after `logout` flushes the session (apps/web/views.py:155-156): the model ends with the flushed session.
- Logging.SanitizationFilter.Filter: the replaced `getMessage` closure is modelled as the list of limits of the filters that wrapped it, not as a function.
- Logging.SanitizationFilter.Filter: `record.args` is a sequence of values, so the case where `args` is a single mapping (`logger.info("%(a)s", {...})`) is not represented. For that case the source iterates the mapping's keys and replaces `args` with a tuple of the sanitised keys (utils/logging.py:18-23); the model does not promise that behaviour.
- Sorting.SortDesc: the sort is stable like Python's `sorted`, but only sortedness and permutation are proved, not stability.
- Orchestration and tooling: apps/spider/tasks.py (Celery), the scripts other than the vote migration, the UI composables (useReviews.js, useAuth.js, api.js, useNotifications.js, sanitize.js), the router and the build configuration.
- lib/departments.py: a constant lookup table with nothing to prove.
- SpiderManager.PrerequisitesLast: the listing order of the cache files is a parameter. `list_cache_files` sorts newest first (apps/spider/manager.py:94), so the last file of each type in that order is the oldest, although the comment at apps/spider/manager.py:652 says the most recent files are loaded. The model cannot show this without modelling file times, so it is not a finding here.
- AuthState.Spread: `{ ...parsed }` of a parsed string or array spreads its indices as keys. The model gives an empty object for every non-object value.
- AuthState.ExpiryTime: JavaScript prints numbers of 10^21 and more in exponent notation (`String(1e21)` is "1e+21"), so `parseInt` reads back only the leading digit. The model reads the whole integer back.
- AuthState.JsonCodec: the codec is assumed to read every value back exactly. JavaScript's JSON loses integers beyond 2^53, which the model does not capture.

## Findings

| source | as written | input that shows it | evidently intended | confidence | as-written member | corrected member |
|---|---|---|---|---|---|---|
| apps/web/models/vote.py:19-39 | the average is computed before `vote.save()`, so the course score misses the vote just cast | first quality vote of 5 on a course with no votes: the score set is 0 | the score is the average including the new vote (5) | not executed | Ratings.StaleScoreExample | Ratings.VoteTable.VoteAfterSave |
| apps/web/models/vote_for_review.py:52 | `Review.objects.with_votes` is not defined on `ReviewManager`, so every vote on an existing review raises and the transaction rolls back | any kudos vote on an existing review | the vote is toggled and the counts after it are returned | not executed | ReviewVotes.ReviewVoteTable.VoteAsWritten | ReviewVotes.ReviewVoteTable.Vote |
| apps/spider/manager.py:471-473 | the full-width comma replace swaps an ASCII comma for itself, so a full-width comma is not a separator | the answer `1，2` selects no API | `1，2` selects APIs 1 and 2, as the comment says | not executed | SpiderManager.FullwidthCommaIgnored | SpiderManager.FullwidthCommaIntended |
| apps/auth/views.py:226 | the OTP is read from `verification_code`, which `get_latest_answer` never returns (it returns `otp`), so the lookup is always `otp:None` | any verify request after a successful initiate, with the code answered in time | the OTP is read from `otp` and a timely answer verifies the token | not executed | AuthHandshake.VerifyAsWrittenNeverSucceeds | AuthHandshake.InitiateThenVerify |
| apps/web/views.py:115-150 | login replaces the session's anonymous `user_id` by the username, so logout looks the username up in `unauth_session_ids` and never removes the anonymous id login appended | an anonymous session with id `abc` logs in as `alice`, then logs out: `abc` stays on alice's list | logout takes the anonymous id of the session off the list again | not executed | WebViews.LoginThenLogoutAsWritten | WebViews.LoginThenLogoutIntended |
