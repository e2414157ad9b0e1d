# Exam portal: grading, validation, accounts and the exam pages

This project models the core of a proctored multiple-choice exam portal. It has a Django backend and two React exam pages.

Backend:
- **Letter-answer exam** (`core/quiz`). Examinees send `{q_id, ans}` pairs. The serializer normalises each `ans` to one of A–D and refuses repeated `q_id`s. The view grades each entry against the question table and builds an ordered per-question audit, the list of invalid ids and the marks. It then saves them into the user row and sets `exam_attempted`.
- **Option-list exam** (`core/questions`):
  - `{question_id, selected_option_index}` entries are graded with a bounds check on the option list;
  - a second endpoint accepts a mark computed elsewhere;
  - the question serializers check option lists and hide the correct index from examinees.
- **Accounts** (`core/users`):
  - the `@diu.edu.bd` domain rule;
  - the account manager's flag defaults;
  - the one-time-password (OTP) verify / reset / resend logic and login's required fields.

Frontend:
- **Server-graded page** (`frontend/src/app/exam/page.tsx`):
  - the session state and the answer ledger, one `Option<int>` slot per question;
  - the clamped question pointer and the countdown with its `mm:ss` display;
  - the index-to-letter submission;
  - the report rebuilt from the server's reply.
- **Self-scoring page** (`src/app/exam/page.tsx`):
  - the same ledger and navigation;
  - the missing-recording guard;
  - local scoring against the built-in question list.

Layout, one module per source file:

| file | module | models |
|---|---|---|
| `common.dfy` | `Common` | Option, Result, a JSON value type, Python `strip` and ASCII `upper`, decimal digits |
| `quiz_serializers.dfy` | `QuizSerializers` | `core/quiz/serializers.py` (over `core/quiz/models.py`) |
| `quiz_views.dfy` | `QuizViews` | `core/quiz/views.py` |
| `question_serializers.dfy` | `QuestionSerializers` | `core/questions/serializers.py` (over `core/questions/models.py`) |
| `question_views.dfy` | `QuestionViews` | `core/questions/views.py` |
| `user_models.dfy` | `UserModels` | `core/users/models.py`; the user table is the class `UserStore` |
| `user_views.dfy` | `UserViews` | `core/users/views.py` |
| `exam_clock.dfy` | `ExamClock` | the countdown and `formatTime` of `frontend/src/app/exam/page.tsx` |
| `exam_page.dfy` | `ExamPage` | the rest of `frontend/src/app/exam/page.tsx`; the session is the class `ExamSession` |
| `local_exam_page.dfy` | `LocalExamPage` | `src/app/exam/page.tsx`; the session is the class `LocalExamSession` |

Each backend handler has two forms:
- a function from the user table (a `map` keyed by e-mail) and the request to the reply and the new table; the lemmas are stated about this function;
- a method on `UserStore` that updates the table in place; its `ensures` ties the new table to that function.

Where the source updates variables in a loop (the two grading loops and the self-scoring page's running score), the model has a `method` with a `for` loop. The method is proved equal to a recursive specification function, and the counts, order and bounds are proved about that function. The source's `map`/`filter` chains (`answersToSubmit`, the report mapping) and the `q_ids` comprehension are expressions, and are functions here. Each page is a class whose fields are the page's React state; each handler is a method with a `modifies` clause.

Behaviour that lies outside the model is taken as a parameter:
- Django's `normalize_email`, `validate_password` and `authenticate`;
- Python's `json.loads`;
- the camera's answer;
- what the HTTP client or the recorder hands back.

## Model

| member | source | states |
|---|---|---|
| `QuizSerializers.SerializeQuestion` | core/quiz/serializers.py:10-12 | the serialized question has exactly the fields id, text, option_a…option_d, in order, and none is `correct` |
| `QuizSerializers.SerializeHidesCorrect` | core/quiz/serializers.py:6-12 | what an examinee is shown is the same whatever the stored correct answer |
| `QuizSerializers.ValidateAns` | core/quiz/serializers.py:18-22 | accepted exactly when the stripped value is one letter a–d in either case; the accepted value is that letter upper-cased, one of A–D |
| `QuizSerializers.UpperIsAnswer` | core/quiz/serializers.py:19-20 | `upper()` of a string is in ('A','B','C','D') exactly when the string is one letter a–d in either case |
| `QuizSerializers.ValidateAnsIdempotent` | core/quiz/serializers.py:18-22 | validating an accepted answer again returns the same letter |
| `QuizSerializers.AcceptsPaddedLetter` | core/quiz/serializers.py:19-22 | a letter a–d of either case, with any surrounding whitespace, is accepted as its upper-case letter |
| `QuizSerializers.StripPaddedChar` | core/quiz/serializers.py:19 | `strip()` removes exactly the surrounding whitespace around a non-space character |
| `QuizSerializers.DistinctIffSetSize` | core/quiz/serializers.py:31-32 | `len(q_ids) == len(set(q_ids))` holds exactly when no id repeats |
| `QuizSerializers.ValidateAnswers` | core/quiz/serializers.py:29-34 | a list is accepted exactly when its q_ids are pairwise distinct, and is then returned unchanged; otherwise the duplicate-id error |
| `QuizSerializers.FirstRejected` | core/quiz/serializers.py:14-22 | the index of the first entry whose `ans` fails `validate_ans`: every earlier one passes, and the one found fails |
| `QuizSerializers.ValidateItems` | core/quiz/serializers.py:24-27 | every entry passes exactly when all `ans` are acceptable; each is then replaced by its validated letter, q_id and order kept; otherwise a failing index is reported |
| `QuizSerializers.ValidatePayload` | core/quiz/serializers.py:24-34 | a missing list is an error; the payload is accepted exactly when every `ans` validates and the q_ids are distinct; the result has one entry per input, same q_id, each answer one letter A–D |
| `QuizViews.ExamQuestions` | core/quiz/views.py:24-31 | 403 exactly for a user who already attempted; otherwise every row serialized, in order, without `correct` |
| `QuizViews.AuditAll` | core/quiz/views.py:71-108 | one audit entry per submitted answer, in submission order, with the same q_id |
| `QuizViews.MarksBound` | core/quiz/views.py:99-101 | the marks never exceed the number of entries |
| `QuizViews.MarksCountScoring` | core/quiz/views.py:99-101 | the marks equal the number of entries that are valid and correct |
| `QuizViews.InvalidIdsMembership` | core/quiz/views.py:82-92 | an id is listed in `invalid_question_ids` exactly when some entry for it had a null answer or an unknown question; a question without a correct answer is not listed |
| `QuizViews.InvalidIdsBound` | core/quiz/views.py:83-89 | at most one invalid id per entry |
| `QuizViews.AuditScoresIff` | core/quiz/views.py:76-101 | an entry scores exactly when its answer is present, its question exists and has a correct answer, and the upper-cased answer equals the upper-cased correct letter; an unknown question gives `question_not_found`, a blank correct answer `question_has_no_correct_answer` |
| `QuizViews.UpperIdempotent` | core/quiz/views.py:79 | upper-casing twice is upper-casing once |
| `QuizViews.AuditIgnoresCase` | core/quiz/views.py:79-99 | an answer and its upper-cased form are graded alike |
| `QuizViews.GradeAnswers` | core/quiz/views.py:67-108 | the loop builds exactly the audit list, the invalid-id list and the marks the specification functions define |
| `QuizViews.AuditJson` | core/quiz/views.py:117 | one saved dict per audit entry |
| `QuizViews.EntryJsonRoundTrip` | core/quiz/views.py:84-117 | every saved audit dict reads back as the entry it was written from |
| `QuizViews.QuestionsMap` | core/quiz/views.py:63-65 | the map holds exactly the table rows whose id was submitted |
| `QuizViews.AuditAgainstTable` | core/quiz/views.py:63-87 | grading against the restricted map is grading against the whole table |
| `QuizViews.SubmitExam` | core/quiz/views.py:44-134 | an invalid payload gives 400, an unknown user 404 and a known attempted user 403, each with the table unchanged; a valid payload from a known, unattempted user is always graded (Submitted); on success: `per_question` audits the validated answers in order, `total_questions_submitted` is the payload length, marks ≤ total, and the user row gets `exam_attempted`, the marks and the saved audit |
| `QuizViews.SecondSubmissionRejected` | core/quiz/views.py:59-112 | after an accepted submission the user is marked attempted, and every later submission is rejected without changing the table |
| `QuizViews.SavedAnswersReadBack` | core/quiz/views.py:113-132 | the saved `exam_answers` reads back, entry by entry, as the returned `per_question` |
| `QuizViews.SubmitExamView` | core/quiz/views.py:44-134 | updating the table in place gives the reply and table of `SubmitExam`, keeping the table keyed by e-mail |
| `QuestionSerializers.OptionsJson` | core/questions/models.py:5 | a list of option texts stored as a JSON list of strings, one per option |
| `QuestionSerializers.ValidateOptions` | core/questions/serializers.py:11-21 | undecodable text, a non-list and a list with a non-string are each rejected with their own error, exactly in those cases; an accepted value is the decoded list |
| `QuestionSerializers.AcceptsStringList` | core/questions/serializers.py:16-19 | text that decodes to a list of strings is accepted as exactly that list |
| `QuestionSerializers.ExamineeQuestion` | core/questions/serializers.py:22-25 | the examinee form has exactly the fields id, text and options, none of them `correct_answer_index` |
| `QuestionSerializers.ExamineeHidesCorrectIndex` | core/questions/serializers.py:22-25 | the examinee form does not depend on the correct index |
| `QuestionSerializers.ReportQuestion` | core/questions/serializers.py:27-33 | the report form has the fields id, question, options, correctAnswer, with `text` under `question` and the correct index under `correctAnswer` |
| `QuestionViews.AnsweredAppend` | core/questions/views.py:50-76 | grading two runs of entries one after the other is grading each in turn, so order is kept |
| `QuestionViews.AnsweredSingle` | core/questions/views.py:54-76 | one entry is kept exactly when its question exists, and is then graded by the bounds-checked comparison |
| `QuestionViews.AnsweredBound` | core/questions/views.py:54-59 | no more entries are kept than were submitted |
| `QuestionViews.AnsweredExist` | core/questions/views.py:54-70 | every kept entry names an existing question and is correct exactly when its index is given, inside the option list and equal to the correct index |
| `QuestionViews.ScoreCountsCorrect` | core/questions/views.py:66-84 | the score equals the number of entries graded correct, so score ≤ entries kept |
| `QuestionViews.GradeIndexAnswers` | core/questions/views.py:46-76 | the loop builds exactly the kept entries and their score |
| `QuestionViews.AnsweredListJson` | core/questions/views.py:80 | one saved dict per kept entry |
| `QuestionViews.SubmitIndexExam` | core/questions/views.py:35-87 | an attempted user, then an empty or missing list, get 400 with the table unchanged; otherwise the reply is scored, score ≤ kept ≤ submitted, `totalQuestions` is the table size, and the user row gets `exam_attempted` and the score |
| `QuestionViews.IndexSubmissionOnce` | core/questions/views.py:37-78 | after an accepted submission every later one is refused and changes nothing |
| `QuestionViews.PyInt` | core/questions/views.py:105-110 | Python's `int()` on a decoded JSON value: an integer is kept, a boolean gives 1 or 0, a float is truncated toward zero, a string is parsed as `int()` parses text; null, lists and objects fail |
| `QuestionViews.ParseInt` | core/questions/views.py:106 | `int()` on a string succeeds only on non-blank text |
| `QuestionViews.NumeralValue` | core/questions/views.py:106 | a stripped numeral, bare or signed, parses to its value, negated under a minus sign |
| `QuestionViews.ParsedIsNumeral` | core/questions/views.py:106 | any text `int()` accepts strips to a bare or signed numeral |
| `QuestionViews.ParseIntNumeral` | core/questions/views.py:105-110 | `int()` accepts a string exactly when it strips to a bare or signed numeral, and then gives that numeral's signed value; any other text is refused |
| `QuestionViews.ParseDecimal` | core/questions/views.py:106 | a decimal numeral, bare or with either sign, parses back to its value |
| `QuestionViews.SavedAnswers` | core/questions/views.py:117-121 | the sent `exam_answers` is kept when truthy, else an empty list |
| `QuestionViews.SubmitExamResult` | core/questions/views.py:93-125 | checks run in order: attempted, then missing mark, then not an integer or negative, each leaving the table unchanged; success is exactly a non-negative integer mark from an unattempted user, stored with `exam_attempted` set |
| `QuestionViews.DecimalMarkAccepted` | core/questions/views.py:105-114 | a mark sent as its decimal text is stored as that number and the attempt is recorded |
| `QuestionViews.NumericMarkAccepted` | core/questions/views.py:105-114 | a mark sent as a non-negative number is stored as that number |
| `QuestionViews.SignedNegativeMarkRefused` | core/questions/views.py:105-114 | a mark sent as text with a minus sign is refused as negative |
| `QuestionViews.ResultSubmissionOnce` | core/questions/views.py:98-114 | after an accepted mark, both endpoints refuse every later request from that user |
| `QuestionViews.SubmitIndexExamView` | core/questions/views.py:35-87 | the in-place handler gives the reply and table of `SubmitIndexExam` |
| `QuestionViews.SubmitExamResultView` | core/questions/views.py:93-125 | the in-place handler gives the outcome and table of `SubmitExamResult` |
| `UserModels.ValidateDiuEmail` | core/users/models.py:8-16 | an address passes exactly when it is present and ends with `@diu.edu.bd` |
| `UserModels.EmptyEmailRejected` | core/users/models.py:12 | a missing or empty address is rejected |
| `UserModels.DomainSuffixAccepted` | core/users/models.py:8-16 | any local part followed by the domain is accepted |
| `UserModels.SetDefault` | core/users/models.py:38-45 | `setdefault` adds the key with the default only when absent and changes no other key |
| `UserModels.BoolValue` | core/users/models.py:65-78 | a boolean field stores true exactly for `True`, `1`, `1.0`, "t", "True", "1", false exactly for their counterparts, and refuses any other value |
| `UserModels.IntValue` | core/users/models.py:79-81 | `exam_marks` stores an integer as given and a boolean as 1 or 0 |
| `UserModels.OtpValue` | core/users/models.py:69 | the nullable `otp` column takes a text or null, and nothing else |
| `UserModels.BoolField` | core/users/models.py:31 | a boolean field of a new record is the default when no keyword names it, else the keyword's converted value |
| `UserModels.CreateUserOutcome` | core/users/models.py:22-34 | checks in order: missing address, wrong domain, a keyword naming no model field, a value its column refuses, a taken address, each leaving the table unchanged; success is exactly when all pass; the created user has the normalised address, and each flag, the code, the marks and the saved answers take the converted keyword value when given, or else the field default (unverified, active, not staff, not superuser, not attempted, no code, 0 marks, empty answers); a given password is stored set (as its hash), and a missing one leaves the password unusable |
| `UserModels.UserFlags` | core/users/models.py:37-40 | `create_user` passes every keyword on, with `is_staff` and `is_superuser` defaulted to false |
| `UserModels.CreateUserFlags` | core/users/models.py:37-40 | `create_user` builds a non-staff, non-superuser account unless the caller passes the flags, and a flag given as a boolean is stored as given |
| `UserModels.SuperuserFlags` | core/users/models.py:43-50 | both flags default to `True`; `is_staff` given as anything but `True` itself fails first, then `is_superuser`; on success both are `True` and every other keyword is passed on |
| `UserModels.SuperuserIsStaffAndSuperuser` | core/users/models.py:43-53 | an account built by `create_superuser` is staff and superuser |
| `UserModels.SuperuserNeedsTrueItself` | core/users/models.py:47-50 | a flag given as `1` or "True" is refused by `create_superuser`, although a boolean field would store `1` as true |
| `UserModels.UserStore.constructor` | core/users/models.py:55-58 | an empty table, keyed by e-mail |
| `UserModels.UserStore.CreateUserRecord` | core/users/models.py:22-34 | the in-place insert gives the outcome and table of `CreateUserOutcome` and keeps the table keyed by e-mail |
| `UserModels.UserStore.CreateUser` | core/users/models.py:37-40 | as `_create_user` with both flags defaulted to false; without those keywords the account is neither staff nor superuser |
| `UserModels.UserStore.CreateSuperuser` | core/users/models.py:43-53 | a flag error leaves the table unchanged; a created account is staff and superuser |
| `UserViews.VerifyOtp` | core/users/views.py:50-76 | a missing e-mail or code gives 400, an unknown address 404, a matching code 200 with the address verified and the code cleared; any other outcome leaves the table unchanged |
| `UserViews.VerifyOtpSingleUse` | core/users/views.py:54-62 | a code that verified an address cannot verify it again |
| `UserViews.VerifiedCodeCannotReset` | core/users/views.py:59-167 | right after verification, until a new code is issued, no reset can succeed with any code |
| `UserViews.ResetPassword` | core/users/views.py:144-171 | missing fields or a password that fails validation give 400 before any lookup; then an unknown address gives exactly 404; a matching code gives 200, sets the password and clears the code; a mismatching code gives 400; only 200, 400 and 404 occur; any outcome but 200 leaves the table unchanged |
| `UserViews.ResetCodeSingleUse` | core/users/views.py:161-165 | a code used for a reset works neither for another reset nor for a verification |
| `UserViews.ResendOtp` | core/users/views.py:179-194 | a code is mailed exactly when the address is known and not verified; a verified address gets 400 and no mail |
| `UserViews.NoResendAfterVerify` | core/users/views.py:186-187 | once an address is verified, no further code is mailed |
| `UserViews.Login` | core/users/views.py:85-103 | a missing e-mail or password gives 400; 200 exactly when the credentials authenticate; present credentials that do not authenticate give 401 |
| `UserViews.VerifyOtpView` | core/users/views.py:50-76 | the in-place handler gives the status and table of `VerifyOtp` |
| `UserViews.ResetPasswordView` | core/users/views.py:144-171 | the in-place handler gives the status and table of `ResetPassword` |
| `ExamClock.Tick` | frontend/src/app/exam/page.tsx:258-264 | a tick at 1 or below sets 0 and submits; otherwise it takes one second off and stays at least 1; never negative |
| `ExamClock.CountdownSubmitsOnTime` | frontend/src/app/exam/page.tsx:255-269 | from t seconds the first t−1 ticks count down one second each without submitting, and the next tick submits |
| `ExamClock.FullTimeSubmitsAfterLimit` | frontend/src/app/exam/page.tsx:255-269 | the full 25 minutes run 1499 ticks down to 1, and tick 1500 submits at 0 |
| `ExamClock.FormatTime` | frontend/src/app/exam/page.tsx:383-389 | the display is the whole minutes in at least two digits, a colon, then the remaining seconds in exactly two digits, each zero-padded; the minutes part reads as `seconds / 60` and the seconds part as `seconds % 60` |
| `ExamClock.MinutesPaddedToTwo` | frontend/src/app/exam/page.tsx:383-389 | `padStart(2, "0")` pads the minutes to two digits and no further: a display starting with a zero is exactly five characters |
| `ExamClock.FormatTimeRoundTrip` | frontend/src/app/exam/page.tsx:383-389 | the display reads back as minutes × 60 + seconds, the number shown |
| `ExamClock.FullTimeDisplay` | frontend/src/app/exam/page.tsx:383-389 | the starting time shows as "25:00" |
| `ExamPage.Choose` | frontend/src/app/exam/page.tsx:360-364 | selecting sets the current slot and keeps the length and every other slot |
| `ExamPage.ChooseIdempotent` | frontend/src/app/exam/page.tsx:360-364 | selecting an option twice is selecting it once; a later choice replaces an earlier one |
| `ExamPage.NextIndex` | frontend/src/app/exam/page.tsx:366-370 | moves forward by one only when not at the last question, so the index stays in range |
| `ExamPage.PrevIndex` | frontend/src/app/exam/page.tsx:372-376 | moves back by one only when not at the first question, never below 0 |
| `ExamPage.NextPrevReturns` | frontend/src/app/exam/page.tsx:366-376 | forward then back returns to the starting question, unless it was the last |
| `ExamPage.LetterOf` | frontend/src/app/exam/page.tsx:174-180 | an option index 0–3 becomes one answer letter A–D |
| `ExamPage.IndexOfLetter` | frontend/src/app/exam/page.tsx:212 | `indexOf` in A–D: the index whose letter it is, or −1 when it is none of them |
| `ExamPage.LetterRoundTrip` | frontend/src/app/exam/page.tsx:174-212 | letter to index undoes index to letter on 0–3 |
| `ExamPage.AnsweredSlots` | frontend/src/app/exam/page.tsx:175-183 | the positions of the answered slots: each answered, increasing, and every answered slot among them |
| `ExamPage.SubmissionPairsSlots` | frontend/src/app/exam/page.tsx:175-183 | the submission has one entry per answered slot, in question order, each pairing that question's id with the letter of the option chosen in its own slot |
| `ExamPage.SubmissionLetters` | frontend/src/app/exam/page.tsx:180 | every submitted answer is one letter A–D |
| `ExamPage.SubmissionIdsDistinct` | frontend/src/app/exam/page.tsx:175-183 | with distinct question ids, the submitted q_ids are distinct |
| `ExamPage.LetterAccepted` | core/quiz/serializers.py:18-22 | an answer letter passes `validate_ans` as itself |
| `ExamPage.LetterItemsPass` | core/quiz/serializers.py:24-27 | letter entries come out of per-entry validation unchanged |
| `ExamPage.DistinctItemsValidate` | core/quiz/serializers.py:29-34 | entries that pass one by one under distinct q_ids pass as a payload, unchanged |
| `ExamPage.SubmissionAccepted` | frontend/src/app/exam/page.tsx:175-188 | what the page submits always passes the server's payload validation, each answer unchanged |
| `ExamPage.AuditKeepsLetter` | core/quiz/views.py:79-105 | grading keeps an upper-case answer letter as sent |
| `ExamPage.AcceptedAudit` | frontend/src/app/exam/page.tsx:175-188 | the server audits the page's submission entry by entry, exactly as sent |
| `ExamPage.FindQuestion` | frontend/src/app/exam/page.tsx:202 | `find`: a question with that id, or none when no question has it |
| `ExamPage.FindDistinct` | frontend/src/app/exam/page.tsx:202 | with distinct ids, `find` on a question's id returns that question |
| `ExamPage.NumberOr` | frontend/src/app/exam/page.tsx:194-196 | `n \|\| fallback`: the number unless it is absent or 0 |
| `ExamPage.ReportEntryOf` | frontend/src/app/exam/page.tsx:199-214 | a report entry keeps the q_id and has correctAnswer −1; its text and four option texts are the found question's (a null option as "") or all "" when none is found; it selects the letter's index when `ans` is non-empty and null otherwise, and is correct only when `is_correct` is true |
| `ExamPage.BuildReport` | frontend/src/app/exam/page.tsx:193-216 | score is `marks` or 0, total is `total_questions_submitted` or the question count, and one entry per `per_question` item, or none when absent |
| `ExamPage.ReportOfLetters` | frontend/src/app/exam/page.tsx:193-215 | a reply auditing letter answers yields a report whose entries keep each sent q_id and select each letter's index, scored by the reply's marks |
| `ExamPage.ReportOfSubmission` | frontend/src/app/exam/page.tsx:175-216 | a reply auditing the page's submission yields a report showing, in question order, each answered question's id and text with the option chosen in its slot |
| `ExamPage.ReportRecoversChoices` | frontend/src/app/exam/page.tsx:175-216 | submitting the ledger to the letter-answer server and building the report gives back, in question order, each answered question (id and text) with the option chosen in its slot, and the server's marks as score |
| `ExamPage.ExamSession.constructor` | frontend/src/app/exam/page.tsx:91-157 | idle, first question, no questions, empty ledger, full time |
| `ExamPage.ExamSession.StartExam` | frontend/src/app/exam/page.tsx:280-358 | camera refused: error state, nothing else changes; questions loaded: active, ledger of null slots one per question; already attempted: error and flagged; expired session: sent to login; other failures: error; the index, time and report never change |
| `ExamPage.ExamSession.SelectAnswer` | frontend/src/app/exam/page.tsx:360-364 | the ledger becomes `Choose` of the old ledger at the current index; no other field changes |
| `ExamPage.ExamSession.Next` | frontend/src/app/exam/page.tsx:366-370 | the index becomes `NextIndex`; no other field changes |
| `ExamPage.ExamSession.Prev` | frontend/src/app/exam/page.tsx:372-376 | the index becomes `PrevIndex`; no other field changes |
| `ExamPage.ExamSession.Tick` | frontend/src/app/exam/page.tsx:255-269 | the remaining time and the submit call follow `ExamClock.Tick`; no other field changes |
| `ExamPage.ExamSession.Submit` | frontend/src/app/exam/page.tsx:162-253 | sends `SubmissionAnswers` of the ledger; accepted: the report is `BuildReport` of the reply and the page goes to the report; expired session: to login; failure: back to active with nothing stored; the questions, ledger, index, time and flags never change |
| `LocalExamPage.Entries` | src/app/exam/page.tsx:217-225 | one entry per question, in order, carrying the slot unchanged, correct exactly when the slot holds the correct index |
| `LocalExamPage.CorrectCountIsPositions` | src/app/exam/page.tsx:216-219 | the counter equals the number of correct entries and never exceeds the entry count |
| `LocalExamPage.UnansweredNeverCorrect` | src/app/exam/page.tsx:218 | an unanswered question is never correct |
| `LocalExamPage.ReportOf` | src/app/exam/page.tsx:216-232 | the report's total is the question count, its entries are `Entries`, and its score counts the correct entries, at most the total |
| `LocalExamPage.ReportScoreCountsCorrect` | src/app/exam/page.tsx:216-229 | the score is the number of questions whose slot holds the correct index |
| `LocalExamPage.ScoreAnswers` | src/app/exam/page.tsx:216-225 | the map with the running counter yields exactly `Entries` and the report's score |
| `LocalExamPage.LocalExamSession.constructor` | src/app/exam/page.tsx:44-46 | idle, first question, one null slot per built-in question |
| `LocalExamPage.LocalExamSession.StartExam` | src/app/exam/page.tsx:136-168 | camera granted: active with permission; refused: error without it; ledger unchanged |
| `LocalExamPage.LocalExamSession.RecorderFailed` | src/app/exam/page.tsx:123-133 | a recorder error shows the error screen and drops the permission |
| `LocalExamPage.LocalExamSession.SelectAnswer` | src/app/exam/page.tsx:170-174 | the ledger becomes `Choose` of the old ledger at the current index; no other field changes |
| `LocalExamPage.LocalExamSession.Next` | src/app/exam/page.tsx:176-180 | the index becomes `NextIndex`; no other field changes |
| `LocalExamPage.LocalExamSession.Prev` | src/app/exam/page.tsx:182-186 | the index becomes `PrevIndex`; no other field changes |
| `LocalExamPage.LocalExamSession.Submit` | src/app/exam/page.tsx:188-236 | a missing recording returns to the exam with nothing stored; otherwise the stored report is `ReportOf` the ledger and the page goes to the report; the ledger, index and camera flag never change |

## Left out

- HTTP, routing, authentication classes, transactions and row locks: each handler is a function of the user table and the request, and the row lock is modelled by updating one entry of the map.
- Django REST framework field coercion: `IntegerField` turning numeric strings into integers, and `CharField` trimming and `max_length=1`. Trimming then `max_length=1` accepts the same values as `validate_ans` alone, since an accepted answer strips to one character. Payload entries are modelled with integer ids and string answers.
- Error messages and the shape of `serializer.errors`. Only the first failing entry's index is reported, not all of them.
- `upper()` beyond ASCII: it is modelled on a–z only, so other Unicode case mappings are not modelled. `strip()` removes exactly the characters for which Python's `isspace()` holds.
- `normalize_email`, `validate_password`, `authenticate`, password hashing, JWT issuing, e-mail sending (`emails.py` is not part of this model): parameters or left out.
- `json.dumps` text: the saved `exam_answers` is a JSON value, not its text.
- The paths that answer 500 (a failed save or an unexpected exception) are left out.
- `ForgotPasswordView`, `RegisterView`, `LogoutView` and the user serializers are outside the core named here.
- `QuestionViews.PyInt`: Python `int()` of infinities and NaN (which raise) and of strings with underscores or non-ASCII digits is not modelled.
- `UserModels.CreateUserOutcome`: values for `otp` other than text or null (which Django would store as their `str()`), numeric strings for `exam_marks` (which `int()` accepts), and a null `exam_answers` are all treated as refused values. The model fields not held in the record (`full_name`, `whatsapp_number`, `student_id`, `date_joined`, `id`, `last_login`) are accepted as keywords and their values dropped. The many-to-many `groups` and `user_permissions`, which Django refuses in the constructor, count as unexpected keywords. Which of several refused values Django reports first is not modelled.
- The `json.loads` branch for options stored as text (core/questions/views.py:62): a row's options are held decoded, as a list.
- A `validate_options` input that is already decoded: the model takes text only.
- A `selected_option_index` that is not an integer or null: each entry's index is modelled as an integer or null. In the source, a float or boolean index is compared numerically, so `1.0` and `True` are graded as index 1, and a string raises and answers 500. The same holds for `question_id` (`IndexAnswer.questionId` is an integer or null): in the source, a numeric string such as `"3"` is looked up as id 3 and graded, and a non-numeric string raises `ValueError` rather than `DoesNotExist`, so the request answers 500.
- An `answers` value that is truthy but not a list of dicts raises and answers 500; the model takes a list of entries.
- `UserViews.VerifyOtp`, `UserViews.ResetPassword`, `UserViews.Login`: each request field is a string or absent. A value of another JSON kind, such as a numeric `otp`, cannot be expressed; in the source it fails the string comparison and gets the same 400.
- The random ordering of questions in the list views, and the report page's own arithmetic.
- The camera stream, the media recorder, face detection, the canvas, toasts and the proctoring analysis (a foreign call whose result is copied into the report) are left out. The camera's answer, the recorder's output and the server's reply are parameters.
- The HTTP client of the server-graded page is not modelled. It maps a failed reply to `error || message`, while the backend sends `detail`. So the string comparisons on "You already attempted the exam." and "Authentication required." depend on that client; the model takes the classified outcome (`LoadResponse`, `SubmitOutcome`) as given.
- `ExamPage.SubmissionAccepted`, `ExamPage.ReportRecoversChoices`: both assume that the loaded questions have distinct ids. Their ids are the table's primary keys; the page itself does not check this.
- `JSON.stringify` of the report's option list: the report holds the four texts as a sequence.
- `ExamPage.ExamSession.Submit`: the page has no guard against a second submission while one is in flight, and the model adds none. Each call is one complete submission.
- `LocalExamPage.LocalExamSession.Submit`: the recording is a free parameter on every call. In the source, `handleSubmit` stops the camera tracks before its missing-recording guard, and a stopped recorder then resolves `""`. So after the page goes back to the exam, a later submission cannot carry a recording either. The model does not tie later calls to the stopped recorder.
