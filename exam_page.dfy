/** The exam page of the letter-answer exam (frontend/src/app/exam/page.tsx):
    the session state the page keeps, the answer ledger, navigation, the
    countdown, the `{q_id, ans}` submission it sends and the report it
    builds from the reply. React rendering, the camera stream, toasts and
    the HTTP client are outside the model; what the client hands back is a
    parameter. */
module ExamPage {
  import opened Common
  import opened QuizSerializers
  import opened QuizViews
  import opened UserModels
  import ExamClock

  /** A question as the page receives it; the option texts may be null. */
  datatype PageQuestion = PageQuestion(id: int, text: string, optionA: Option<string>, optionB: Option<string>,
                                       optionC: Option<string>, optionD: Option<string>)


  predicate DistinctIds(questions: seq<PageQuestion>) {
    forall i, j :: 0 <= i < j < |questions| ==> questions[i].id != questions[j].id
  }

  /** The radio group offers the option indices 0 to 3, so every answered
      slot holds one of them. */
  predicate SlotsInRange(answers: seq<Option<int>>) {
    forall k :: 0 <= k < |answers| && answers[k].Some? ==> 0 <= answers[k].value < 4
  }

  // ---------------------------------------------------------------------
  // The answer ledger and navigation

  /** `handleAnswerSelect` on the ledger: a copy with one slot replaced. */
  function Choose(ledger: seq<Option<int>>, i: nat, option: int): (r: seq<Option<int>>)
    requires i < |ledger|
    ensures |r| == |ledger|
    ensures r[i] == Some(option)
    ensures forall k :: 0 <= k < |r| && k != i ==> r[k] == ledger[k]
  {
    ledger[i := Some(option)]
  }

  /** Choosing the same option twice is choosing it once; choosing another
      option replaces the first. */
  lemma ChooseIdempotent(ledger: seq<Option<int>>, i: nat, option: int, other: int)
    requires i < |ledger|
    ensures Choose(Choose(ledger, i, option), i, option) == Choose(ledger, i, option)
    ensures Choose(Choose(ledger, i, other), i, option) == Choose(ledger, i, option)
  {
  }

  /** `handleNext`: one step forward, stopping at the last question. */
  function NextIndex(i: nat, count: nat): (r: nat)
    ensures i < count ==> r < count
    ensures r == i || r == i + 1
    ensures r == i + 1 <==> i + 1 < count
  {
    if i + 1 < count then i + 1 else i
  }

  /** `handlePrev`: one step back, stopping at the first question. */
  function PrevIndex(i: nat): (r: nat)
    ensures r == i || r + 1 == i
    ensures r + 1 == i <==> i > 0
  {
    if i > 0 then i - 1 else i
  }

  /** Going forward and back returns to the question one started from,
      unless it was the last one. */
  lemma NextPrevReturns(i: nat, count: nat)
    requires i + 1 < count
    ensures PrevIndex(NextIndex(i, count)) == i
  {
  }

  // ---------------------------------------------------------------------
  // The submission: option index to letter

  function LetterOf(i: int): (s: string)
    requires 0 <= i < 4
    ensures |s| == 1 && IsLetter(s[0])
  {
    [Letters[i]]
  }

  /** `["A", "B", "C", "D"].indexOf(s)` */
  function IndexOfLetter(s: string): (r: int)
    ensures -1 <= r < 4
    ensures r >= 0 ==> s == LetterOf(r)
    ensures r == -1 ==> forall i :: 0 <= i < 4 ==> s != LetterOf(i)
  {
    if s == "A" then 0 else if s == "B" then 1 else if s == "C" then 2 else if s == "D" then 3 else -1
  }

  /** Index to letter and back is the identity on 0 to 3. */
  lemma LetterRoundTrip(i: int)
    requires 0 <= i < 4
    ensures IndexOfLetter(LetterOf(i)) == i
  {
  }

  /** The positions of the answered slots, in increasing order. */
  function AnsweredSlots(answers: seq<Option<int>>): (p: seq<nat>)
    ensures |p| <= |answers|
    ensures forall k :: 0 <= k < |p| ==> p[k] < |answers| && answers[p[k]].Some?
    ensures forall k, l :: 0 <= k < l < |p| ==> p[k] < p[l]
    ensures forall i :: 0 <= i < |answers| && answers[i].Some? ==> i in p
  {
    if answers == [] then []
    else
      var n := |answers| - 1;
      AnsweredSlots(answers[..n]) + (if answers[n].Some? then [n] else [])
  }

  /** `answersToSubmit`: for each answered question, in order, its id and
      the letter of the chosen option; unanswered questions are dropped. */
  function SubmissionAnswers(questions: seq<PageQuestion>, answers: seq<Option<int>>): (r: seq<RawAnswerItem>)
    requires |answers| == |questions| && SlotsInRange(answers)
    ensures |r| <= |questions|
  {
    if questions == [] then []
    else
      var n := |questions| - 1;
      SubmissionAnswers(questions[..n], answers[..n])
      + (if answers[n].Some? then [RawAnswerItem(questions[n].id, LetterOf(answers[n].value))] else [])
  }

  /** The submission pairs, entry by entry, each answered question's id with
      the letter of the option chosen in that question's own slot, in
      question order. */
  lemma {:induction false} SubmissionPairsSlots(questions: seq<PageQuestion>, answers: seq<Option<int>>)
    requires |answers| == |questions| && SlotsInRange(answers)
    ensures |SubmissionAnswers(questions, answers)| == |AnsweredSlots(answers)|
    ensures forall k :: 0 <= k < |AnsweredSlots(answers)| ==>
      SubmissionAnswers(questions, answers)[k]
        == RawAnswerItem(questions[AnsweredSlots(answers)[k]].id, LetterOf(answers[AnsweredSlots(answers)[k]].value))
  {
    if questions != [] {
      var n := |questions| - 1;
      SubmissionPairsSlots(questions[..n], answers[..n]);
      assert answers[..n] == answers[..|answers| - 1];
      var s := SubmissionAnswers(questions, answers);
      var front := SubmissionAnswers(questions[..n], answers[..n]);
      var p := AnsweredSlots(answers);
      var pf := AnsweredSlots(answers[..n]);
      forall k | 0 <= k < |p|
        ensures s[k] == RawAnswerItem(questions[p[k]].id, LetterOf(answers[p[k]].value))
      {
        if k < |pf| {
          assert s[k] == front[k] && p[k] == pf[k];
          assert questions[..n][pf[k]] == questions[p[k]];
        }
      }
    }
  }

  /** Every submitted answer is one answer letter. */
  lemma SubmissionLetters(questions: seq<PageQuestion>, answers: seq<Option<int>>)
    requires |answers| == |questions| && SlotsInRange(answers)
    ensures LetterItems(SubmissionAnswers(questions, answers))
  {
    SubmissionPairsSlots(questions, answers);
  }

  /** No two items of the submission share a q_id. */
  predicate DistinctRawIds(items: seq<RawAnswerItem>) {
    forall i, j :: 0 <= i < j < |items| ==> items[i].qId != items[j].qId
  }

  /** With distinct question ids, the submitted q_ids are distinct. */
  lemma SubmissionIdsDistinct(questions: seq<PageQuestion>, answers: seq<Option<int>>)
    requires |answers| == |questions| && SlotsInRange(answers) && DistinctIds(questions)
    ensures DistinctRawIds(SubmissionAnswers(questions, answers))
  {
    SubmissionPairsSlots(questions, answers);
    var s := SubmissionAnswers(questions, answers);
    var p := AnsweredSlots(answers);
    forall i, j | 0 <= i < j < |s|
      ensures s[i].qId != s[j].qId
    {
      assert s[i].qId == questions[p[i]].id && s[j].qId == questions[p[j]].id;
    }
  }

  /** An answer letter passes `validate_ans` as itself. */
  lemma LetterAccepted(s: string)
    requires |s| == 1 && IsLetter(s[0])
    ensures AcceptableAns(s)
    ensures ValidateAns(s) == Ok(s)
  {
    assert !IsPySpace(s[0]);
    assert TrimLeft(s) == s;
    assert TrimRight(s) == s;
    assert Strip(s) == s;
    assert [UpperChar(s[0])] == s;
  }

  lemma LetterUpper(s: string)
    requires |s| == 1 && IsLetter(s[0])
    ensures Upper(s) == s
  {
    assert [UpperChar(s[0])] == s;
  }

  /** Every entry's answer is one upper-case answer letter. */
  predicate LetterItems(items: seq<RawAnswerItem>) {
    forall k :: 0 <= k < |items| ==> |items[k].ans| == 1 && IsLetter(items[k].ans[0])
  }

  /** The entries as `validated_data` holds them. */
  function AsAnswerItems(items: seq<RawAnswerItem>): (r: seq<AnswerItem>)
    ensures |r| == |items|
    ensures forall k :: 0 <= k < |items| ==> r[k] == AnswerItem(items[k].qId, Some(items[k].ans))
  {
    seq(|items|, k requires 0 <= k < |items| => AnswerItem(items[k].qId, Some(items[k].ans)))
  }

  /** Letter entries pass `validate_ans` one by one. */
  lemma LetterItemsOk(items: seq<RawAnswerItem>)
    requires LetterItems(items)
    ensures ValidateItems(items).Ok?
  {
    forall k | 0 <= k < |items|
      ensures AcceptableAns(items[k].ans)
    {
      LetterAccepted(items[k].ans);
    }
  }

  /** Letter entries come out of validation unchanged. */
  lemma LetterItemsPass(items: seq<RawAnswerItem>)
    requires LetterItems(items)
    ensures ValidateItems(items) == Ok(AsAnswerItems(items))
  {
    LetterItemsOk(items);
    var r := ValidateItems(items).value;
    var expected := AsAnswerItems(items);
    forall k | 0 <= k < |items|
      ensures r[k] == expected[k]
    {
      LetterAccepted(items[k].ans);
    }
    assert r == expected;
  }

  /** Items that pass one by one under distinct q_ids pass as a payload,
      unchanged. */
  lemma DistinctItemsValidate(items: seq<RawAnswerItem>)
    requires ValidateItems(items) == Ok(AsAnswerItems(items)) && DistinctRawIds(items)
    ensures ValidatePayload(Some(items)) == Ok(AsAnswerItems(items))
  {
    assert Distinct(QIds(AsAnswerItems(items)));
  }

  /** What the page submits for distinct questions always passes the
      server's payload validation, each answer unchanged. */
  lemma SubmissionAccepted(questions: seq<PageQuestion>, answers: seq<Option<int>>)
    requires |answers| == |questions| && SlotsInRange(answers) && DistinctIds(questions)
    ensures var s := SubmissionAnswers(questions, answers);
      ValidatePayload(Some(s)) == Ok(AsAnswerItems(s))
  {
    var s := SubmissionAnswers(questions, answers);
    SubmissionLetters(questions, answers);
    SubmissionIdsDistinct(questions, answers);
    LetterItemsPass(s);
    DistinctItemsValidate(s);
  }

  // ---------------------------------------------------------------------
  // The report built from the reply

  /** One `per_question` element as the page reads it. */
  datatype PerQuestionItem = PerQuestionItem(qId: int, ans: Option<string>, isCorrect: Option<bool>)

  /** The reply fields the page reads; each may be absent. */
  datatype SubmitResponse = SubmitResponse(marks: Option<int>, totalQuestionsSubmitted: Option<int>,
                                           perQuestion: Option<seq<PerQuestionItem>>)

  datatype ReportEntry = ReportEntry(qId: int, questionText: string, options: seq<string>, correctAnswer: int,
                                     selectedAnswer: Option<int>, isCorrect: bool)

  /** The stored report, without its constant proctoring result. */
  datatype ExamReport = ExamReport(score: int, totalQuestions: int, answeredQuestions: seq<ReportEntry>)

  /** `questions.find((q) => q.id === id)` */
  function FindQuestion(questions: seq<PageQuestion>, id: int): (r: Option<PageQuestion>)
    ensures r.Some? ==> r.value in questions && r.value.id == id
    ensures r.None? ==> forall k :: 0 <= k < |questions| ==> questions[k].id != id
  {
    if questions == [] then None
    else if questions[0].id == id then Some(questions[0])
    else FindQuestion(questions[1..], id)
  }

  /** A number read with `n || fallback`: absent and 0 both fall back. */
  function NumberOr(n: Option<int>, fallback: int): (r: int)
    ensures n.Some? && n.value != 0 ==> r == n.value
    ensures n.None? || n.value == 0 ==> r == fallback
  {
    if n.Some? && n.value != 0 then n.value else fallback
  }

  /** With distinct ids, looking up a question's id finds that question. */
  lemma {:induction false} FindDistinct(questions: seq<PageQuestion>, i: nat)
    requires DistinctIds(questions) && i < |questions|
    ensures FindQuestion(questions, questions[i].id) == Some(questions[i])
  {
    if i > 0 {
      assert questions[0].id != questions[i].id;
      FindDistinct(questions[1..], i - 1);
    }
  }

  /** One `per_question` element as a report entry: the question's text and
      its four option texts (null ones as `""`) when the page has that
      question, else all empty; the letter's index as the selection. */
  function ReportEntryOf(item: PerQuestionItem, questions: seq<PageQuestion>): (e: ReportEntry)
    ensures e.qId == item.qId && e.correctAnswer == -1
    ensures e.selectedAnswer.Some? <==> item.ans.Some? && item.ans.value != ""
    ensures e.selectedAnswer.Some? ==> e.selectedAnswer.value == IndexOfLetter(item.ans.value)
    ensures e.isCorrect <==> item.isCorrect == Some(true)
    ensures |e.options| == 4
    ensures forall q :: FindQuestion(questions, item.qId) == Some(q) ==>
      e.questionText == q.text
      && e.options == [q.optionA.GetOr(""), q.optionB.GetOr(""), q.optionC.GetOr(""), q.optionD.GetOr("")]
    ensures FindQuestion(questions, item.qId).None? ==> e.questionText == "" && e.options == ["", "", "", ""]
  {
    var q := FindQuestion(questions, item.qId);
    ReportEntry(
      item.qId,
      if q.Some? then q.value.text else "",
      if q.Some? then [q.value.optionA.GetOr(""), q.value.optionB.GetOr(""), q.value.optionC.GetOr(""), q.value.optionD.GetOr("")]
      else ["", "", "", ""],
      -1,
      if item.ans.Some? && item.ans.value != "" then Some(IndexOfLetter(item.ans.value)) else None,
      item.isCorrect == Some(true))
  }

  /** The report `handleSubmit` stores after an accepted submission. */
  function BuildReport(response: SubmitResponse, questions: seq<PageQuestion>): (r: ExamReport)
    ensures r.score == NumberOr(response.marks, 0)
    ensures r.totalQuestions == NumberOr(response.totalQuestionsSubmitted, |questions|)
    ensures response.perQuestion.None? ==> r.answeredQuestions == []
    ensures response.perQuestion.Some? ==>
      |r.answeredQuestions| == |response.perQuestion.value|
      && forall k :: 0 <= k < |r.answeredQuestions| ==>
           r.answeredQuestions[k] == ReportEntryOf(response.perQuestion.value[k], questions)
  {
    var items := if response.perQuestion.Some? then response.perQuestion.value else [];
    ExamReport(
      NumberOr(response.marks, 0),
      NumberOr(response.totalQuestionsSubmitted, |questions|),
      seq(|items|, k requires 0 <= k < |items| => ReportEntryOf(items[k], questions)))
  }

  /** The page's reading of an accepted reply from the letter-answer server. */
  function ResponseOf(reply: QuizReply): SubmitResponse
    requires reply.Submitted?
  {
    SubmitResponse(Some(reply.marks), Some(reply.totalQuestionsSubmitted),
      Some(seq(|reply.perQuestion|, k requires 0 <= k < |reply.perQuestion| =>
        var e := reply.perQuestion[k];
        PerQuestionItem(e.qId, e.ans, if e.verdict.Graded? then Some(e.verdict.isCorrect) else None))))
  }

  /** Grading keeps an answer letter as it was sent. */
  lemma AuditKeepsLetter(item: AnswerItem, table: map<int, QuizQuestion>)
    requires item.ans.Some? && |item.ans.value| == 1 && IsLetter(item.ans.value[0])
    ensures Audit(item, table).ans == item.ans
  {
    LetterUpper(item.ans.value);
  }

  /** The audit of letter answers carries, entry by entry, the letter sent. */
  lemma AuditedLetters(s: seq<RawAnswerItem>, table: map<int, QuizQuestion>)
    requires LetterItems(s)
    ensures var p := AuditAll(AsAnswerItems(s), table);
      forall k :: 0 <= k < |p| ==> p[k].ans == Some(s[k].ans)
  {
    var items := AsAnswerItems(s);
    var p := AuditAll(items, table);
    forall k | 0 <= k < |p|
      ensures p[k].ans == Some(s[k].ans)
    {
      AuditKeepsLetter(items[k], table);
    }
  }

  /** The report built from a reply that audits letter answers selects,
      entry by entry, the index of the letter sent, and scores the reply's
      marks. */
  lemma ReportOfLetters(s: seq<RawAnswerItem>, table: map<int, QuizQuestion>, reply: QuizReply, questions: seq<PageQuestion>)
    requires LetterItems(s) && reply.Submitted? && reply.perQuestion == AuditAll(AsAnswerItems(s), table)
    ensures var report := BuildReport(ResponseOf(reply), questions);
      && |report.answeredQuestions| == |s|
      && (forall k :: 0 <= k < |s| ==>
            && report.answeredQuestions[k].qId == s[k].qId
            && report.answeredQuestions[k].selectedAnswer == Some(IndexOfLetter(s[k].ans)))
      && report.score == reply.marks
  {
    AuditedLetters(s, table);
    var response := ResponseOf(reply);
    var report := BuildReport(response, questions);
    forall k | 0 <= k < |s|
      ensures report.answeredQuestions[k].qId == s[k].qId
      ensures report.answeredQuestions[k].selectedAnswer == Some(IndexOfLetter(s[k].ans))
    {
      assert response.perQuestion.value[k].ans == reply.perQuestion[k].ans;
      assert response.perQuestion.value[k].qId == reply.perQuestion[k].qId;
    }
  }

  /** The server grades the page's submission entry by entry, as sent. */
  lemma AcceptedAudit(questions: seq<PageQuestion>, answers: seq<Option<int>>,
                      users: map<string, User>, who: string, table: map<int, QuizQuestion>)
    requires |answers| == |questions| && SlotsInRange(answers) && DistinctIds(questions)
    requires SubmitExam(users, who, Some(SubmissionAnswers(questions, answers)), table).0.Submitted?
    ensures var s := SubmissionAnswers(questions, answers);
      && LetterItems(s)
      && SubmitExam(users, who, Some(s), table).0.perQuestion == AuditAll(AsAnswerItems(s), table)
  {
    SubmissionAccepted(questions, answers);
    SubmissionLetters(questions, answers);
  }

  /** The report's entries are, in question order, the answered questions
      (their ids and texts), each with the option chosen in its slot. */
  predicate ShowsChoices(entries: seq<ReportEntry>, questions: seq<PageQuestion>, answers: seq<Option<int>>)
    requires |answers| == |questions|
  {
    && |entries| == |AnsweredSlots(answers)|
    && forall k :: 0 <= k < |entries| ==>
         && entries[k].qId == questions[AnsweredSlots(answers)[k]].id
         && entries[k].questionText == questions[AnsweredSlots(answers)[k]].text
         && entries[k].selectedAnswer == answers[AnsweredSlots(answers)[k]]
  }

  /** The report built from a reply that audits the page's submission
      shows each answered question with the option chosen in its slot. */
  lemma ReportOfSubmission(questions: seq<PageQuestion>, answers: seq<Option<int>>,
                           reply: QuizReply, table: map<int, QuizQuestion>)
    requires |answers| == |questions| && SlotsInRange(answers) && DistinctIds(questions)
    requires reply.Submitted?
    requires LetterItems(SubmissionAnswers(questions, answers))
    requires reply.perQuestion == AuditAll(AsAnswerItems(SubmissionAnswers(questions, answers)), table)
    ensures ShowsChoices(BuildReport(ResponseOf(reply), questions).answeredQuestions, questions, answers)
    ensures BuildReport(ResponseOf(reply), questions).score == reply.marks
  {
    var s := SubmissionAnswers(questions, answers);
    var p := AnsweredSlots(answers);
    SubmissionPairsSlots(questions, answers);
    ReportOfLetters(s, table, reply, questions);
    var entries := BuildReport(ResponseOf(reply), questions).answeredQuestions;
    forall k | 0 <= k < |p|
      ensures entries[k].qId == questions[p[k]].id
      ensures entries[k].questionText == questions[p[k]].text
      ensures entries[k].selectedAnswer == answers[p[k]]
    {
      assert s[k] == RawAnswerItem(questions[p[k]].id, LetterOf(answers[p[k]].value));
      assert entries[k].qId == s[k].qId;
      assert entries[k] == ReportEntryOf(ResponseOf(reply).perQuestion.value[k], questions);
      FindDistinct(questions, p[k]);
      LetterRoundTrip(answers[p[k]].value);
    }
  }

  /** Submitting the ledger to the server and building the report from its
      reply gives back, entry by entry and in question order, each answered
      question (its id and text) with the option chosen in its slot, and the
      server's marks as the score. */
  lemma ReportRecoversChoices(questions: seq<PageQuestion>, answers: seq<Option<int>>,
                              users: map<string, User>, who: string, table: map<int, QuizQuestion>)
    requires |answers| == |questions| && SlotsInRange(answers) && DistinctIds(questions)
    requires SubmitExam(users, who, Some(SubmissionAnswers(questions, answers)), table).0.Submitted?
    ensures ShowsChoices(
      BuildReport(ResponseOf(SubmitExam(users, who, Some(SubmissionAnswers(questions, answers)), table).0), questions).answeredQuestions,
      questions, answers)
    ensures BuildReport(ResponseOf(SubmitExam(users, who, Some(SubmissionAnswers(questions, answers)), table).0), questions).score
      == SubmitExam(users, who, Some(SubmissionAnswers(questions, answers)), table).0.marks
  {
    var s := SubmissionAnswers(questions, answers);
    AcceptedAudit(questions, answers, users, who, table);
    ReportOfSubmission(questions, answers, SubmitExam(users, who, Some(s), table).0, table);
  }

  // ---------------------------------------------------------------------
  // The session

  datatype ExamState = Idle | Permission | Active | Submitting | Error

  /** Where the router has sent the examinee. */
  datatype Route = OnExam | OnLogin | OnReport

  /** What loading the questions came back with. */
  datatype LoadResponse =
    | AlreadyAttempted
    | LoadAuthExpired
    | LoadFailed
    | Loaded(questions: Option<seq<PageQuestion>>)

  /** What submitting came back with; a thrown error is `SubmitFailed`. */
  datatype SubmitOutcome = Accepted(response: SubmitResponse) | SubmitAuthExpired | SubmitFailed

  class ExamSession {
    var state: ExamState
    var currentIndex: nat
    var questions: seq<PageQuestion>
    /** The answer ledger: one slot per question, null until answered. */
    var answers: seq<Option<int>>
    var remainingTime: int
    var hasCameraPermission: bool
    var examAlreadyAttempted: bool
    /** The report saved for the report page. */
    var report: Option<ExamReport>
    var route: Route

    ghost predicate Valid()
      reads this
    {
      && |answers| == |questions|
      && SlotsInRange(answers)
      && (currentIndex == 0 || currentIndex < |questions|)
      && (state != Active && state != Submitting ==> currentIndex == 0)
      && remainingTime >= 0
    }

    constructor ()
      ensures Valid()
      ensures state == Idle && currentIndex == 0 && questions == [] && answers == []
      ensures remainingTime == ExamClock.ExamTimeLimit && !hasCameraPermission && !examAlreadyAttempted
      ensures report == None && route == OnExam
    {
      state := Idle;
      currentIndex := 0;
      questions := [];
      answers := [];
      remainingTime := ExamClock.ExamTimeLimit;
      hasCameraPermission := false;
      examAlreadyAttempted := false;
      report := None;
      route := OnExam;
    }

    /** `handleStartExam`: offered only from the idle or error screen of a
      user not known to have attempted the exam. */
    method StartExam(cameraGranted: bool, load: LoadResponse)
      requires Valid() && (state == Idle || state == Error) && !examAlreadyAttempted
      modifies this
      ensures Valid()
      ensures currentIndex == old(currentIndex) && remainingTime == old(remainingTime) && report == old(report)
      ensures !cameraGranted ==> state == Error && !hasCameraPermission && route == old(route)
                                 && questions == old(questions) && answers == old(answers)
                                 && examAlreadyAttempted == old(examAlreadyAttempted)
      ensures cameraGranted ==> hasCameraPermission
      ensures cameraGranted && load.Loaded? && load.questions.Some? ==>
        && state == Active && questions == load.questions.value
        && answers == seq(|questions|, _ => None) && route == old(route) && !examAlreadyAttempted
      ensures cameraGranted && load == AlreadyAttempted ==> state == Error && examAlreadyAttempted
      ensures cameraGranted && load == LoadAuthExpired ==> state == Permission && route == OnLogin
      ensures cameraGranted && (load == LoadFailed || load == Loaded(None)) ==> state == Error
      ensures !(cameraGranted && load.Loaded? && load.questions.Some?) ==> questions == old(questions) && answers == old(answers)
      ensures load != AlreadyAttempted ==> examAlreadyAttempted == old(examAlreadyAttempted)
      ensures load != LoadAuthExpired ==> route == old(route)
    {
      state := Permission;
      if !cameraGranted {
        state := Error;
        hasCameraPermission := false;
        return;
      }
      hasCameraPermission := true;
      match load
      case AlreadyAttempted =>
        examAlreadyAttempted := true;
        state := Error;
      case Loaded(Some(qs)) =>
        questions := qs;
        answers := seq(|qs|, _ => None);
        state := Active;
      case Loaded(None) =>
        state := Error;
      case LoadAuthExpired =>
        route := OnLogin;
      case LoadFailed =>
        state := Error;
    }

    /** `handleAnswerSelect`, from the radio group of the question shown. */
    method SelectAnswer(option: int)
      requires Valid() && state == Active && currentIndex < |questions| && 0 <= option < 4
      modifies this
      ensures Valid()
      ensures state == old(state) && currentIndex == old(currentIndex) && questions == old(questions)
      ensures answers == Choose(old(answers), currentIndex, option)
      ensures remainingTime == old(remainingTime) && report == old(report) && route == old(route)
      ensures hasCameraPermission == old(hasCameraPermission) && examAlreadyAttempted == old(examAlreadyAttempted)
    {
      answers := answers[currentIndex := Some(option)];
    }

    method Next()
      requires Valid() && state == Active
      modifies this
      ensures Valid()
      ensures currentIndex == NextIndex(old(currentIndex), |questions|)
      ensures answers == old(answers) && questions == old(questions) && state == old(state)
      ensures remainingTime == old(remainingTime) && report == old(report) && route == old(route)
      ensures hasCameraPermission == old(hasCameraPermission) && examAlreadyAttempted == old(examAlreadyAttempted)
    {
      if currentIndex + 1 < |questions| {
        currentIndex := currentIndex + 1;
      }
    }

    method Prev()
      requires Valid() && state == Active
      modifies this
      ensures Valid()
      ensures currentIndex == PrevIndex(old(currentIndex))
      ensures answers == old(answers) && questions == old(questions) && state == old(state)
      ensures remainingTime == old(remainingTime) && report == old(report) && route == old(route)
      ensures hasCameraPermission == old(hasCameraPermission) && examAlreadyAttempted == old(examAlreadyAttempted)
    {
      if currentIndex > 0 {
        currentIndex := currentIndex - 1;
      }
    }

    /** One second of the running timer; `submitDue` is the call to
        `handleSubmit` it makes when time is up. */
    method Tick() returns (submitDue: bool)
      requires Valid() && state == Active
      modifies this
      ensures Valid()
      ensures (remainingTime, submitDue) == ExamClock.Tick(old(remainingTime))
      ensures state == old(state) && answers == old(answers) && currentIndex == old(currentIndex)
      ensures questions == old(questions) && report == old(report) && route == old(route)
      ensures hasCameraPermission == old(hasCameraPermission) && examAlreadyAttempted == old(examAlreadyAttempted)
    {
      if remainingTime <= 1 {
        remainingTime := 0;
        submitDue := true;
      } else {
        remainingTime := remainingTime - 1;
        submitDue := false;
      }
    }

    /** `handleSubmit`: sends the letters of the answered questions through
        `send` and acts on the outcome. */
    method Submit(send: seq<RawAnswerItem> -> SubmitOutcome) returns (sent: seq<RawAnswerItem>)
      requires Valid() && state == Active
      modifies this
      ensures Valid()
      ensures sent == SubmissionAnswers(questions, answers)
      ensures questions == old(questions) && answers == old(answers) && currentIndex == old(currentIndex)
      ensures remainingTime == old(remainingTime)
      ensures hasCameraPermission == old(hasCameraPermission) && examAlreadyAttempted == old(examAlreadyAttempted)
      ensures send(sent).Accepted? ==>
        state == Submitting && report == Some(BuildReport(send(sent).response, questions)) && route == OnReport
      ensures send(sent) == SubmitAuthExpired ==> state == Submitting && route == OnLogin && report == old(report)
      ensures send(sent) == SubmitFailed ==> state == Active && route == old(route) && report == old(report)
    {
      state := Submitting;
      sent := SubmissionAnswers(questions, answers);
      match send(sent)
      case Accepted(response) =>
        report := Some(BuildReport(response, questions));
        route := OnReport;
      case SubmitAuthExpired =>
        route := OnLogin;
      case SubmitFailed =>
        state := Active;
    }
  }
}
