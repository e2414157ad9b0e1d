/** The older, self-scoring exam page (src/app/exam/page.tsx): a fixed
    question list with the correct option index on each question, the
    answer ledger, navigation, the missing-recording guard, and the report
    it scores locally. Camera, recorder, face detection and the proctoring
    analysis are outside the model; what the recorder hands back is a
    parameter. */
module LocalExamPage {
  import opened Common
  import opened ExamPage

  /** A question of the built-in list: the options are shown as a radio
      group, `correctAnswer` is an option index. */
  datatype LocalQuestion = LocalQuestion(id: int, question: string, options: seq<string>, correctAnswer: int)

  /** One `answeredQuestions` element. */
  datatype AnsweredQuestion = AnsweredQuestion(question: LocalQuestion, selectedAnswer: Option<int>, isCorrect: bool)

  /** The stored report, without its proctoring result. */
  datatype LocalReport = LocalReport(score: nat, totalQuestions: nat, answeredQuestions: seq<AnsweredQuestion>)

  /** Every answered slot holds an index of one of its question's options. */
  predicate SlotsFit(questions: seq<LocalQuestion>, answers: seq<Option<int>>)
    requires |answers| == |questions|
  {
    forall k :: 0 <= k < |answers| && answers[k].Some? ==> 0 <= answers[k].value < |questions[k].options|
  }

  // ---------------------------------------------------------------------
  // Local scoring

  /** The entries `handleSubmit` maps the questions to: one per question,
      in order, with the slot as it stands and whether it is the correct
      option. */
  function Entries(questions: seq<LocalQuestion>, answers: seq<Option<int>>): (r: seq<AnsweredQuestion>)
    requires |answers| == |questions|
    ensures |r| == |questions|
    ensures forall i :: 0 <= i < |r| ==>
      r[i].question == questions[i] && r[i].selectedAnswer == answers[i]
      && (r[i].isCorrect <==> answers[i] == Some(questions[i].correctAnswer))
  {
    seq(|questions|, i requires 0 <= i < |questions| =>
      AnsweredQuestion(questions[i], answers[i], answers[i] == Some(questions[i].correctAnswer)))
  }

  /** The number of correct entries. */
  function CorrectCount(entries: seq<AnsweredQuestion>): nat {
    if entries == [] then 0
    else CorrectCount(entries[..|entries| - 1]) + (if entries[|entries| - 1].isCorrect then 1 else 0)
  }

  /** The positions of the correct entries. */
  function CorrectPositions(entries: seq<AnsweredQuestion>): set<int> {
    set i | 0 <= i < |entries| && entries[i].isCorrect
  }

  /** The count is the number of correct positions, and so at most the
      number of entries. */
  lemma {:induction false} CorrectCountIsPositions(entries: seq<AnsweredQuestion>)
    ensures CorrectCount(entries) == |CorrectPositions(entries)|
    ensures CorrectCount(entries) <= |entries|
  {
    if entries != [] {
      var n := |entries| - 1;
      var front := entries[..n];
      CorrectCountIsPositions(front);
      assert CorrectPositions(entries) == CorrectPositions(front) + (if entries[n].isCorrect then {n} else {}) by {
        forall i | i in CorrectPositions(entries)
          ensures i in CorrectPositions(front) + (if entries[n].isCorrect then {n} else {})
        {
          if i < n {
            assert front[i] == entries[i];
          }
        }
        forall i | i in CorrectPositions(front)
          ensures i in CorrectPositions(entries)
        {
          assert front[i] == entries[i];
        }
      }
      assert n !in CorrectPositions(front);
    }
  }

  /** An unanswered question is never counted correct. */
  lemma UnansweredNeverCorrect(questions: seq<LocalQuestion>, answers: seq<Option<int>>, i: nat)
    requires |answers| == |questions| && i < |questions| && answers[i].None?
    ensures !Entries(questions, answers)[i].isCorrect
  {
  }

  /** The report `handleSubmit` stores. */
  function ReportOf(questions: seq<LocalQuestion>, answers: seq<Option<int>>): (r: LocalReport)
    requires |answers| == |questions|
    ensures r.totalQuestions == |questions| && r.score <= r.totalQuestions
    ensures r.answeredQuestions == Entries(questions, answers)
    ensures r.score == |CorrectPositions(r.answeredQuestions)|
  {
    var entries := Entries(questions, answers);
    CorrectCountIsPositions(entries);
    LocalReport(CorrectCount(entries), |questions|, entries)
  }

  /** The score is the number of questions whose slot holds the correct
      option. */
  lemma ReportScoreCountsCorrect(questions: seq<LocalQuestion>, answers: seq<Option<int>>)
    requires |answers| == |questions|
    ensures ReportOf(questions, answers).score
      == |set i | 0 <= i < |questions| && answers[i] == Some(questions[i].correctAnswer)|
  {
    var entries := Entries(questions, answers);
    assert CorrectPositions(entries) == set i | 0 <= i < |questions| && answers[i] == Some(questions[i].correctAnswer);
  }

  /** The scoring pass of `handleSubmit`: a map over the questions with a
      running `score` counter. */
  method ScoreAnswers(questions: seq<LocalQuestion>, answers: seq<Option<int>>)
    returns (score: nat, answeredQuestions: seq<AnsweredQuestion>)
    requires |answers| == |questions|
    ensures answeredQuestions == Entries(questions, answers)
    ensures score == CorrectCount(answeredQuestions) == ReportOf(questions, answers).score
    ensures score <= |questions|
  {
    score := 0;
    answeredQuestions := [];
    for index := 0 to |questions|
      invariant answeredQuestions == Entries(questions[..index], answers[..index])
      invariant score == CorrectCount(answeredQuestions)
    {
      var q := questions[index];
      var isCorrect := answers[index] == Some(q.correctAnswer);
      if isCorrect {
        score := score + 1;
      }
      var entry := AnsweredQuestion(q, answers[index], isCorrect);
      assert (answeredQuestions + [entry])[..|answeredQuestions|] == answeredQuestions;
      answeredQuestions := answeredQuestions + [entry];
    }
    assert questions[..|questions|] == questions && answers[..|answers|] == answers;
    CorrectCountIsPositions(answeredQuestions);
  }

  /** `!videoDataUri`: no recording, or an empty one. */
  predicate MissingRecording(videoDataUri: Option<string>) {
    videoDataUri.None? || videoDataUri.value == ""
  }

  // ---------------------------------------------------------------------
  // The session

  class LocalExamSession {
    /** `examQuestions`, fixed for the page's lifetime. */
    const questions: seq<LocalQuestion>
    var state: ExamState
    var currentIndex: nat
    /** The answer ledger: one slot per question, null until answered. */
    var answers: seq<Option<int>>
    var hasCameraPermission: bool
    /** The report saved for the report page. */
    var report: Option<LocalReport>
    var route: Route

    ghost predicate Valid()
      reads this
    {
      && |answers| == |questions|
      && SlotsFit(questions, answers)
      && (currentIndex == 0 || currentIndex < |questions|)
      && (state == Active ==> hasCameraPermission)
    }

    /** The page as first rendered: idle, on the first question, with every
        slot empty. */
    constructor (examQuestions: seq<LocalQuestion>)
      ensures Valid()
      ensures questions == examQuestions && state == Idle && currentIndex == 0
      ensures answers == seq(|examQuestions|, _ => None)
      ensures !hasCameraPermission && report == None && route == OnExam
    {
      questions := examQuestions;
      state := Idle;
      currentIndex := 0;
      answers := seq(|examQuestions|, _ => None);
      hasCameraPermission := false;
      report := None;
      route := OnExam;
    }

    /** `handleStartExam`, offered on the idle screen: with the camera
        granted the recording starts and the exam is active, otherwise the
        page shows the error screen. */
    method StartExam(cameraGranted: bool)
      requires Valid() && state == Idle
      modifies this
      ensures Valid()
      ensures state == (if cameraGranted then Active else Error)
      ensures hasCameraPermission == cameraGranted
      ensures answers == old(answers) && currentIndex == old(currentIndex)
      ensures report == old(report) && route == old(route)
    {
      state := Permission;
      if cameraGranted {
        hasCameraPermission := true;
        state := Active;
      } else {
        state := Error;
        hasCameraPermission := false;
      }
    }

    /** The recorder reported an error: the page shows the error screen. */
    method RecorderFailed()
      requires Valid()
      modifies this
      ensures Valid()
      ensures state == Error && !hasCameraPermission
      ensures answers == old(answers) && currentIndex == old(currentIndex)
      ensures report == old(report) && route == old(route)
    {
      state := Error;
      hasCameraPermission := false;
    }

    /** `handleAnswerSelect`, from the radio group of the question shown. */
    method SelectAnswer(option: int)
      requires Valid() && state == Active && currentIndex < |questions|
      requires 0 <= option < |questions[currentIndex].options|
      modifies this
      ensures Valid()
      ensures answers == Choose(old(answers), currentIndex, option)
      ensures state == old(state) && currentIndex == old(currentIndex)
      ensures report == old(report) && route == old(route) && hasCameraPermission == old(hasCameraPermission)
    {
      answers := answers[currentIndex := Some(option)];
    }

    method Next()
      requires Valid() && state == Active
      modifies this
      ensures Valid()
      ensures currentIndex == NextIndex(old(currentIndex), |questions|)
      ensures answers == old(answers) && state == old(state) && report == old(report)
      ensures route == old(route) && hasCameraPermission == old(hasCameraPermission)
    {
      if currentIndex + 1 < |questions| {
        currentIndex := currentIndex + 1;
      }
    }

    method Prev()
      requires Valid() && state == Active
      modifies this
      ensures Valid()
      ensures currentIndex == PrevIndex(old(currentIndex))
      ensures answers == old(answers) && state == old(state) && report == old(report)
      ensures route == old(route) && hasCameraPermission == old(hasCameraPermission)
    {
      if currentIndex > 0 {
        currentIndex := currentIndex - 1;
      }
    }

    /** `handleSubmit`, with what `stopRecording` returned: a missing
        recording sends the examinee back to the exam with nothing stored;
        otherwise the answers are scored here and the report is stored. */
    method Submit(videoDataUri: Option<string>)
      requires Valid() && state == Active
      modifies this
      ensures Valid()
      ensures answers == old(answers) && currentIndex == old(currentIndex)
      ensures hasCameraPermission == old(hasCameraPermission)
      ensures MissingRecording(videoDataUri) ==> state == Active && report == old(report) && route == old(route)
      ensures !MissingRecording(videoDataUri) ==>
        state == Submitting && report == Some(ReportOf(questions, answers)) && route == OnReport
    {
      state := Submitting;
      if MissingRecording(videoDataUri) && hasCameraPermission {
        state := Active;
        return;
      }
      var score, answeredQuestions := ScoreAnswers(questions, answers);
      report := Some(LocalReport(score, |questions|, answeredQuestions));
      route := OnReport;
    }
  }
}
