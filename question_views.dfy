/** The option-list exam's submission endpoints (core/questions/views.py):
    grading `{question_id, selected_option_index}` entries against the
    question table, and accepting a mark computed elsewhere. */
module QuestionViews {
  import opened Common
  import opened QuestionSerializers
  import opened UserModels

  const HTTP_200_OK := 200
  const HTTP_400_BAD_REQUEST := 400

  // ---------------------------------------------------------------------
  // SubmitExamAPIView.post

  /** One submitted entry, read with `.get`: either key may be absent. */
  datatype IndexAnswer = IndexAnswer(questionId: Option<int>, selected: Option<int>)

  /** One element of `answeredQuestions`. */
  datatype AnsweredQuestion = AnsweredQuestion(question: Question, selectedAnswer: Option<int>, isCorrect: bool)

  /** The correctness test: an index given, inside the option list, and
      equal to the stored correct index. */
  predicate IsCorrect(q: Question, selected: Option<int>) {
    selected.Some? && 0 <= selected.value < |q.options| && selected.value == q.correctAnswerIndex
  }

  /** The entries whose question exists, graded, in submission order. */
  function Answered(answers: seq<IndexAnswer>, table: map<int, Question>): seq<AnsweredQuestion> {
    if answers == [] then []
    else
      var a := answers[|answers| - 1];
      Answered(answers[..|answers| - 1], table)
      + (if a.questionId.Some? && a.questionId.value in table
         then [AnsweredQuestion(table[a.questionId.value], a.selected, IsCorrect(table[a.questionId.value], a.selected))]
         else [])
  }

  /** The number of entries graded correct. */
  function Score(p: seq<AnsweredQuestion>): nat {
    if p == [] then 0 else Score(p[..|p| - 1]) + (if p[|p| - 1].isCorrect then 1 else 0)
  }

  /** Grading two runs of entries one after the other is grading each in
      turn: entries are kept in order, and each on its own. */
  lemma {:induction false} AnsweredAppend(a: seq<IndexAnswer>, b: seq<IndexAnswer>, table: map<int, Question>)
    ensures Answered(a + b, table) == Answered(a, table) + Answered(b, table)
  {
    if b == [] {
      assert a + b == a;
    } else {
      assert (a + b)[..|a + b| - 1] == a + b[..|b| - 1];
      AnsweredAppend(a, b[..|b| - 1], table);
    }
  }

  /** A single entry is kept exactly when its question exists, and is then
      graded by `IsCorrect`. */
  lemma AnsweredSingle(a: IndexAnswer, table: map<int, Question>)
    ensures |Answered([a], table)| == (if a.questionId.Some? && a.questionId.value in table then 1 else 0)
    ensures Answered([a], table) != [] ==>
      Answered([a], table)[0] == AnsweredQuestion(table[a.questionId.value], a.selected, IsCorrect(table[a.questionId.value], a.selected))
  {
    assert [a][..0] == [];
  }

  lemma {:induction false} AnsweredBound(answers: seq<IndexAnswer>, table: map<int, Question>)
    ensures |Answered(answers, table)| <= |answers|
  {
    if answers != [] {
      AnsweredBound(answers[..|answers| - 1], table);
    }
  }

  /** Every kept entry belongs to an existing question. */
  lemma {:induction false} AnsweredExist(answers: seq<IndexAnswer>, table: map<int, Question>)
    ensures forall e :: e in Answered(answers, table) ==> e.question in table.Values
    ensures forall e :: e in Answered(answers, table) ==> e.isCorrect == IsCorrect(e.question, e.selectedAnswer)
  {
    if answers != [] {
      AnsweredExist(answers[..|answers| - 1], table);
    }
  }

  /** The score counts the entries graded correct. */
  lemma {:induction false} ScoreCountsCorrect(p: seq<AnsweredQuestion>)
    ensures Score(p) == |set k | 0 <= k < |p| && p[k].isCorrect|
    ensures Score(p) <= |p|
  {
    if p != [] {
      var front := p[..|p| - 1];
      ScoreCountsCorrect(front);
      var s := set k | 0 <= k < |front| && front[k].isCorrect;
      var t := set k | 0 <= k < |p| && p[k].isCorrect;
      if p[|p| - 1].isCorrect {
        assert t == s + {|p| - 1};
      } else {
        assert t == s;
      }
    }
  }

  /** The loop of `SubmitExamAPIView.post`. */
  method GradeIndexAnswers(answers: seq<IndexAnswer>, table: map<int, Question>)
    returns (correctCount: nat, processed: seq<AnsweredQuestion>)
    ensures processed == Answered(answers, table)
    ensures correctCount == Score(processed)
  {
    correctCount, processed := 0, [];
    for i := 0 to |answers|
      invariant processed == Answered(answers[..i], table)
      invariant correctCount == Score(processed)
    {
      assert answers[..i + 1][..i] == answers[..i];
      var questionId := answers[i].questionId;
      var selected := answers[i].selected;
      if questionId.None? || questionId.value !in table {
        continue;
      }
      var question := table[questionId.value];
      var isCorrect := false;
      if selected.Some? {
        if 0 <= selected.value < |question.options| {
          if selected.value == question.correctAnswerIndex {
            isCorrect := true;
            correctCount := correctCount + 1;
          }
        }
      }
      var entry := AnsweredQuestion(question, selected, isCorrect);
      assert (processed + [entry])[..|processed|] == processed;
      processed := processed + [entry];
    }
    assert answers[..|answers|] == answers;
  }

  /** One `processed_answers` dict as saved. */
  function AnsweredJson(e: AnsweredQuestion): Json {
    JObject([("question", JObject(ReportQuestion(e.question))),
             ("selectedAnswer", if e.selectedAnswer.Some? then JInt(e.selectedAnswer.value) else JNull),
             ("isCorrect", JBool(e.isCorrect))])
  }

  function AnsweredListJson(p: seq<AnsweredQuestion>): (j: Json)
    ensures j.JList? && |j.items| == |p|
  {
    JList(seq(|p|, k requires 0 <= k < |p| => AnsweredJson(p[k])))
  }

  datatype ExamReply =
    | Refused(status: int)
    | Scored(score: nat, totalQuestions: nat, answered: seq<AnsweredQuestion>)

  /** The reply and table after the authenticated user `who` submits
      `answers` (`None` when the key is missing or null). */
  function SubmitIndexExam(users: map<string, User>, who: string, answers: Option<seq<IndexAnswer>>,
                           table: map<int, Question>): (out: (ExamReply, map<string, User>))
    requires who in users
    ensures users[who].examAttempted ==> out == (Refused(HTTP_400_BAD_REQUEST), users)
    ensures (answers.None? || answers.value == []) ==> out == (Refused(HTTP_400_BAD_REQUEST), users)
    ensures out.0.Refused? ==> out.1 == users
    ensures out.0.Scored? <==> !users[who].examAttempted && answers.Some? && answers.value != []
    ensures out.0.Scored? ==>
      && out.0.answered == Answered(answers.value, table)
      && out.0.score == Score(out.0.answered) <= |out.0.answered| <= |answers.value|
      && out.0.totalQuestions == |table|
      && out.1 == users[who := users[who].(examAttempted := true, examMarks := out.0.score,
                                           examAnswers := AnsweredListJson(out.0.answered))]
  {
    if users[who].examAttempted then (Refused(HTTP_400_BAD_REQUEST), users)
    else if answers.None? || answers.value == [] then (Refused(HTTP_400_BAD_REQUEST), users)
    else
      var processed := Answered(answers.value, table);
      AnsweredBound(answers.value, table);
      ScoreCountsCorrect(processed);
      var score := Score(processed);
      (Scored(score, |table|, processed),
       users[who := users[who].(examAttempted := true, examMarks := score, examAnswers := AnsweredListJson(processed))])
  }

  /** After an accepted submission, every later one is refused. */
  lemma IndexSubmissionOnce(users: map<string, User>, who: string, first: Option<seq<IndexAnswer>>,
                            second: Option<seq<IndexAnswer>>, table: map<int, Question>)
    requires who in users
    requires SubmitIndexExam(users, who, first, table).0.Scored?
    ensures var after := SubmitIndexExam(users, who, first, table).1;
      who in after && SubmitIndexExam(after, who, second, table) == (Refused(HTTP_400_BAD_REQUEST), after)
  {
    var after := SubmitIndexExam(users, who, first, table).1;
    assert after[who].examAttempted;
  }

  // ---------------------------------------------------------------------
  // SubmitExamResultAPIView.post

  datatype MarkError = AlreadyAttempted | MarkRequired | MarkNotInteger | MarkNegative

  /** Python's `int(x)` on a JSON-decoded value; `None` for a `ValueError`
      or `TypeError`. */
  function PyInt(j: Json): (r: Option<int>)
    ensures j.JInt? ==> r == Some(j.i)
    ensures j.JBool? ==> r == Some(if j.b then 1 else 0)
    ensures j.JFloat? && j.f >= 0.0 ==> r.Some? && r.value >= 0 && r.value as real <= j.f < r.value as real + 1.0
    ensures j.JFloat? && j.f < 0.0 ==> r.Some? && r.value <= 0 && r.value as real - 1.0 < j.f <= r.value as real
    ensures j.JStr? ==> r == ParseInt(j.s)
    ensures j.JNull? || j.JList? || j.JObject? ==> r == None
  {
    match j
    case JInt(i) => Some(i)
    case JBool(b) => Some(if b then 1 else 0)
    case JFloat(f) => Some(if f >= 0.0 then f.Floor else -((-f).Floor))
    case JStr(s) => ParseInt(s)
    case _ => None
  }

  /** `int(s)` on a string: surrounding whitespace, an optional sign, then
      one or more ASCII digits. */
  function ParseInt(s: string): (r: Option<int>)
    ensures r.Some? ==> Strip(s) != []
  {
    var t := Strip(s);
    if t == [] then None
    else
      var negative := t[0] == '-';
      var digits := if t[0] == '-' || t[0] == '+' then t[1..] else t;
      if digits == [] || !AllDigits(digits) then None
      else Some(if negative then -(DigitsValue(digits) as int) else DigitsValue(digits))
  }

  /** `t` is one or more ASCII digits `d`, with or without a sign. */
  predicate SignedNumeral(t: string, d: string) {
    d != [] && AllDigits(d) && (t == d || t == "-" + d || t == "+" + d)
  }

  /** A stripped numeral parses to its value, negated under a minus sign. */
  lemma NumeralValue(s: string, d: string)
    requires SignedNumeral(Strip(s), d)
    ensures |Strip(s)| > 0
    ensures ParseInt(s) == Some(if Strip(s)[0] == '-' then -(DigitsValue(d) as int) else DigitsValue(d))
  {
    var t := Strip(s);
    if t == d {
      assert IsDigit(d[0]);
      assert t[0] != '-' && t[0] != '+';
    } else {
      assert t[1..] == d;
    }
  }

  /** What `int()` accepts strips to a numeral. */
  lemma ParsedIsNumeral(s: string)
    requires ParseInt(s).Some?
    ensures exists d :: SignedNumeral(Strip(s), d)
  {
    var t := Strip(s);
    if t[0] == '-' {
      assert t == "-" + t[1..];
      assert SignedNumeral(t, t[1..]);
    } else if t[0] == '+' {
      assert t == "+" + t[1..];
      assert SignedNumeral(t, t[1..]);
    } else {
      assert SignedNumeral(t, t);
    }
  }

  /** `int()` accepts a string exactly when, once stripped, it is a signed
      or unsigned numeral, and then gives the numeral's value with its
      sign. */
  lemma ParseIntNumeral(s: string)
    ensures ParseInt(s).Some? <==> exists d :: SignedNumeral(Strip(s), d)
    ensures forall d :: SignedNumeral(Strip(s), d) ==>
      ParseInt(s) == Some(if Strip(s)[0] == '-' then -(DigitsValue(d) as int) else DigitsValue(d))
  {
    if ParseInt(s).Some? {
      ParsedIsNumeral(s);
    }
    forall d | SignedNumeral(Strip(s), d)
      ensures ParseInt(s) == Some(if Strip(s)[0] == '-' then -(DigitsValue(d) as int) else DigitsValue(d))
    {
      NumeralValue(s, d);
    }
  }

  /** The decimal text of a number parses back to it, with either sign. */
  lemma ParseDecimal(n: nat)
    ensures ParseInt(DecimalString(n)) == Some(n)
    ensures ParseInt("-" + DecimalString(n)) == Some(-(n as int))
    ensures ParseInt("+" + DecimalString(n)) == Some(n)
  {
    var d := DecimalString(n);
    DecimalStringRoundTrip(n);
    StripDigits(d);
    StripDigits("-" + d);
    StripDigits("+" + d);
    assert ("-" + d)[1..] == d;
    assert ("+" + d)[1..] == d;
  }

  /** A non-empty string with no whitespace at either end is left alone by `strip`. */
  lemma StripDigits(s: string)
    requires s != [] && !IsPySpace(s[0]) && !IsPySpace(s[|s| - 1])
    ensures Strip(s) == s
  {
    assert TrimLeft(s) == s;
    assert TrimRight(s) == s;
  }

  /** The saved `exam_answers`: the value sent when truthy, else `[]`. */
  function SavedAnswers(examAnswers: Json): (j: Json)
    ensures Truthy(examAnswers) ==> j == examAnswers
    ensures !Truthy(examAnswers) ==> j == JList([])
  {
    if Truthy(examAnswers) then examAnswers else JList([])
  }

  /** The outcome and table after `who` posts `data`. */
  function SubmitExamResult(users: map<string, User>, who: string, data: map<string, Json>)
    : (out: (Result<int, MarkError>, map<string, User>))
    requires who in users
    ensures users[who].examAttempted ==> out == (Err(AlreadyAttempted), users)
    ensures !users[who].examAttempted && Get(data, "exam_mark") == JNull ==> out == (Err(MarkRequired), users)
    ensures out.0.Err? ==> out.1 == users
    ensures out.0.Ok? <==>
      !users[who].examAttempted && Get(data, "exam_mark") != JNull
      && PyInt(Get(data, "exam_mark")).Some? && PyInt(Get(data, "exam_mark")).value >= 0
    ensures out.0.Ok? ==>
      && out.0.value == PyInt(Get(data, "exam_mark")).value
      && out.1 == users[who := users[who].(examMarks := out.0.value, examAttempted := true,
           examAnswers := SavedAnswers(if "exam_answers" in data then data["exam_answers"] else JList([])))]
  {
    var examMark := Get(data, "exam_mark");
    var examAnswers := if "exam_answers" in data then data["exam_answers"] else JList([]);
    if users[who].examAttempted then (Err(AlreadyAttempted), users)
    else if examMark.JNull? then (Err(MarkRequired), users)
    else
      match PyInt(examMark)
      case None => (Err(MarkNotInteger), users)
      case Some(m) =>
        if m < 0 then (Err(MarkNegative), users)
        else (Ok(m), users[who := users[who].(examMarks := m, examAttempted := true, examAnswers := SavedAnswers(examAnswers))])
  }

  /** A mark sent as its decimal text is stored as that number, with the
      attempt recorded. */
  lemma DecimalMarkAccepted(users: map<string, User>, who: string, n: nat, examAnswers: Json)
    requires who in users && !users[who].examAttempted
    ensures SubmitExamResult(users, who, map["exam_mark" := JStr(DecimalString(n)), "exam_answers" := examAnswers]).0 == Ok(n)
    ensures SubmitExamResult(users, who, map["exam_mark" := JStr(DecimalString(n)), "exam_answers" := examAnswers]).1[who].examMarks == n
    ensures SubmitExamResult(users, who, map["exam_mark" := JStr(DecimalString(n)), "exam_answers" := examAnswers]).1[who].examAttempted
  {
    ParseDecimal(n);
    var data := map["exam_mark" := JStr(DecimalString(n)), "exam_answers" := examAnswers];
    assert Get(data, "exam_mark") == JStr(DecimalString(n));
    assert PyInt(Get(data, "exam_mark")) == Some(n);
  }

  /** A mark sent as a non-negative number is stored as that number. */
  lemma NumericMarkAccepted(users: map<string, User>, who: string, n: nat)
    requires who in users && !users[who].examAttempted
    ensures SubmitExamResult(users, who, map["exam_mark" := JInt(n)]).0 == Ok(n)
  {
    assert Get(map["exam_mark" := JInt(n)], "exam_mark") == JInt(n);
  }

  /** A mark sent as a string with a minus sign is refused as negative. */
  lemma SignedNegativeMarkRefused(users: map<string, User>, who: string, n: nat)
    requires who in users && !users[who].examAttempted && n > 0
    ensures SubmitExamResult(users, who, map["exam_mark" := JStr("-" + DecimalString(n))]).0 == Err(MarkNegative)
  {
    ParseDecimal(n);
    var data := map["exam_mark" := JStr("-" + DecimalString(n))];
    assert Get(data, "exam_mark") == JStr("-" + DecimalString(n));
    assert PyInt(Get(data, "exam_mark")) == Some(-(n as int));
  }

  /** An accepted mark settles the account: nothing posted afterwards is
      accepted, whichever of the two endpoints it goes to. */
  lemma ResultSubmissionOnce(users: map<string, User>, who: string, data: map<string, Json>,
                             data2: map<string, Json>, answers: Option<seq<IndexAnswer>>, table: map<int, Question>)
    requires who in users
    requires SubmitExamResult(users, who, data).0.Ok?
    ensures var after := SubmitExamResult(users, who, data).1;
      && who in after
      && SubmitExamResult(after, who, data2) == (Err(AlreadyAttempted), after)
      && SubmitIndexExam(after, who, answers, table).0.Refused?
  {
    var after := SubmitExamResult(users, who, data).1;
    assert after[who].examAttempted;
  }

  // ---------------------------------------------------------------------
  // The handlers, updating the table in place

  method SubmitIndexExamView(store: UserStore, who: string, answers: Option<seq<IndexAnswer>>,
                             table: map<int, Question>) returns (reply: ExamReply)
    requires store.Valid() && who in store.users
    modifies store
    ensures store.Valid()
    ensures (reply, store.users) == SubmitIndexExam(old(store.users), who, answers, table)
  {
    var user := store.users[who];
    if user.examAttempted {
      return Refused(HTTP_400_BAD_REQUEST);
    }
    if answers.None? || answers.value == [] {
      return Refused(HTTP_400_BAD_REQUEST);
    }
    var correctCount, processed := GradeIndexAnswers(answers.value, table);
    user := user.(examAttempted := true, examMarks := correctCount, examAnswers := AnsweredListJson(processed));
    store.users := store.users[who := user];
    reply := Scored(correctCount, |table|, processed);
  }

  method SubmitExamResultView(store: UserStore, who: string, data: map<string, Json>)
    returns (r: Result<int, MarkError>)
    requires store.Valid() && who in store.users
    modifies store
    ensures store.Valid()
    ensures (r, store.users) == SubmitExamResult(old(store.users), who, data)
  {
    var user := store.users[who];
    var examMark := Get(data, "exam_mark");
    var examAnswers := if "exam_answers" in data then data["exam_answers"] else JList([]);
    if user.examAttempted {
      return Err(AlreadyAttempted);
    }
    if examMark.JNull? {
      return Err(MarkRequired);
    }
    var parsed := PyInt(examMark);
    if parsed.None? {
      return Err(MarkNotInteger);
    }
    if parsed.value < 0 {
      return Err(MarkNegative);
    }
    user := user.(examMarks := parsed.value, examAttempted := true, examAnswers := SavedAnswers(examAnswers));
    store.users := store.users[who := user];
    r := Ok(parsed.value);
  }
}
