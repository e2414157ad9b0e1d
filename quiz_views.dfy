/** The letter-answer exam's endpoints (core/quiz/views.py): listing the
    questions, and grading a submission against the question table, writing
    the result into the submitting user's row. */
module QuizViews {
  import opened Common
  import opened QuizSerializers
  import opened UserModels

  const HTTP_200_OK := 200
  const HTTP_400_BAD_REQUEST := 400
  const HTTP_403_FORBIDDEN := 403
  const HTTP_404_NOT_FOUND := 404

  // ---------------------------------------------------------------------
  // ExamQuestionsView.get

  /** The serialised question list, or 403 for a user who already sat the exam. */
  function ExamQuestions(user: User, rows: seq<QuizQuestion>): (r: Result<seq<seq<(string, Json)>>, int>)
    ensures r.Err? <==> user.examAttempted
    ensures r.Err? ==> r.error == HTTP_403_FORBIDDEN
    ensures r.Ok? ==> |r.value| == |rows| && forall k :: 0 <= k < |rows| ==> r.value[k] == SerializeQuestion(rows[k])
    ensures r.Ok? ==> forall k, f :: 0 <= k < |rows| && 0 <= f < |r.value[k]| ==> r.value[k][f].0 != "correct"
  {
    if user.examAttempted then Err(HTTP_403_FORBIDDEN)
    else Ok(seq(|rows|, k requires 0 <= k < |rows| => SerializeQuestion(rows[k])))
  }

  // ---------------------------------------------------------------------
  // The per-question audit

  /** Why an entry was or was not graded: the `reason` of an invalid entry,
      or the `is_correct` of a valid one. */
  datatype Verdict = AnswerIsNull | QuestionNotFound | NoCorrectAnswer | Graded(isCorrect: bool)

  /** One element of `per_question`. */
  datatype AuditEntry = AuditEntry(qId: int, ans: Option<string>, verdict: Verdict) {
    /** `valid` */
    predicate IsValid() {
      verdict.Graded?
    }
    /** Counted in `marks`: valid and correct. */
    predicate Scores() {
      verdict == Graded(true)
    }
    /** Listed in `invalid_question_ids`. */
    predicate Listed() {
      verdict == AnswerIsNull || verdict == QuestionNotFound
    }
  }

  /** The loop body of `SubmitExamView.post` for one submitted entry. */
  function Audit(item: AnswerItem, questionsMap: map<int, QuizQuestion>): AuditEntry {
    if item.ans.None? then AuditEntry(item.qId, None, AnswerIsNull)
    else
      var ans := Upper(item.ans.value);
      if item.qId !in questionsMap then AuditEntry(item.qId, Some(ans), QuestionNotFound)
      else
        var q := questionsMap[item.qId];
        if !Present(q.correct) then AuditEntry(item.qId, Some(ans), NoCorrectAnswer)
        else AuditEntry(item.qId, Some(ans), Graded(ans == Upper(q.correct.value)))
  }

  /** `per_question`: one entry per submitted answer, in submission order. */
  function AuditAll(answers: seq<AnswerItem>, questionsMap: map<int, QuizQuestion>): (p: seq<AuditEntry>)
    ensures |p| == |answers|
    ensures forall k :: 0 <= k < |answers| ==> p[k] == Audit(answers[k], questionsMap) && p[k].qId == answers[k].qId
  {
    seq(|answers|, k requires 0 <= k < |answers| => Audit(answers[k], questionsMap))
  }

  /** `invalid_question_ids`: the ids of the null-answer and unknown-question
      entries, in order. */
  function InvalidIds(p: seq<AuditEntry>): seq<int> {
    if p == [] then []
    else InvalidIds(p[..|p| - 1]) + (if p[|p| - 1].Listed() then [p[|p| - 1].qId] else [])
  }

  /** `total_marks`: the number of valid, correct entries. */
  function Marks(p: seq<AuditEntry>): nat {
    if p == [] then 0
    else Marks(p[..|p| - 1]) + (if p[|p| - 1].Scores() then 1 else 0)
  }

  lemma {:induction false} MarksBound(p: seq<AuditEntry>)
    ensures Marks(p) <= |p|
  {
    if p != [] {
      MarksBound(p[..|p| - 1]);
    }
  }

  /** Only a valid, correct entry adds to the marks: with none of them the
      marks are zero, and each one counts once. */
  lemma {:induction false} MarksCountScoring(p: seq<AuditEntry>)
    ensures Marks(p) == |set k | 0 <= k < |p| && p[k].Scores()|
  {
    if p != [] {
      var front := p[..|p| - 1];
      MarksCountScoring(front);
      var s := set k | 0 <= k < |front| && front[k].Scores();
      var t := set k | 0 <= k < |p| && p[k].Scores();
      if p[|p| - 1].Scores() {
        assert t == s + {|p| - 1};
      } else {
        assert t == s;
      }
    }
  }

  /** An id is listed exactly when some entry for it had a null answer or
      named an unknown question; entries whose question lacks a correct
      answer are not listed. */
  lemma {:induction false} InvalidIdsMembership(p: seq<AuditEntry>, x: int)
    ensures x in InvalidIds(p) <==> exists k :: 0 <= k < |p| && p[k].qId == x && p[k].Listed()
  {
    if p != [] {
      var front := p[..|p| - 1];
      InvalidIdsMembership(front, x);
      if exists k :: 0 <= k < |front| && front[k].qId == x && front[k].Listed() {
        var k :| 0 <= k < |front| && front[k].qId == x && front[k].Listed();
        assert p[k] == front[k];
      }
      if exists k :: 0 <= k < |p| && p[k].qId == x && p[k].Listed() {
        var k :| 0 <= k < |p| && p[k].qId == x && p[k].Listed();
        if k < |front| {
          assert front[k] == p[k];
        }
      }
    }
  }

  lemma {:induction false} InvalidIdsBound(p: seq<AuditEntry>)
    ensures |InvalidIds(p)| <= |p|
  {
    if p != [] {
      InvalidIdsBound(p[..|p| - 1]);
    }
  }

  /** An entry scores exactly when its answer, upper-cased, equals the
      question's non-empty correct answer, upper-cased. An unknown question
      or an empty correct answer never scores. */
  lemma AuditScoresIff(item: AnswerItem, questionsMap: map<int, QuizQuestion>)
    ensures Audit(item, questionsMap).Scores() <==>
      item.ans.Some? && item.qId in questionsMap && Present(questionsMap[item.qId].correct)
      && Upper(item.ans.value) == Upper(questionsMap[item.qId].correct.value)
    ensures item.ans.Some? && item.qId !in questionsMap ==>
      Audit(item, questionsMap) == AuditEntry(item.qId, Some(Upper(item.ans.value)), QuestionNotFound)
    ensures item.ans.Some? && item.qId in questionsMap && !Present(questionsMap[item.qId].correct) ==>
      !Audit(item, questionsMap).IsValid() && !Audit(item, questionsMap).Listed()
  {
  }

  lemma UpperIdempotent(s: string)
    ensures Upper(Upper(s)) == Upper(s)
  {
    assert forall k :: 0 <= k < |s| ==> UpperChar(UpperChar(s[k])) == UpperChar(s[k]);
  }

  /** The comparison ignores case: an answer and its upper-cased form are
      audited alike. */
  lemma AuditIgnoresCase(qId: int, ans: string, questionsMap: map<int, QuizQuestion>)
    ensures Audit(AnswerItem(qId, Some(ans)), questionsMap) == Audit(AnswerItem(qId, Some(Upper(ans))), questionsMap)
  {
    UpperIdempotent(ans);
  }

  // ---------------------------------------------------------------------
  // The grading loop

  /** The loop of `SubmitExamView.post`: builds `processed`, `invalid_q_ids`
      and `total_marks` entry by entry. */
  method GradeAnswers(answers: seq<AnswerItem>, questionsMap: map<int, QuizQuestion>)
    returns (totalMarks: nat, processed: seq<AuditEntry>, invalidQIds: seq<int>)
    ensures processed == AuditAll(answers, questionsMap)
    ensures invalidQIds == InvalidIds(processed)
    ensures totalMarks == Marks(processed)
  {
    totalMarks, processed, invalidQIds := 0, [], [];
    for i := 0 to |answers|
      invariant processed == AuditAll(answers[..i], questionsMap)
      invariant invalidQIds == InvalidIds(processed)
      invariant totalMarks == Marks(processed)
    {
      var item := answers[i];
      var qId := item.qId;
      var ans: Option<string> := if item.ans.None? then None else Some(Upper(item.ans.value));
      var entry: AuditEntry;
      if ans.None? {
        entry := AuditEntry(qId, None, AnswerIsNull);
        invalidQIds := invalidQIds + [qId];
      } else if qId !in questionsMap {
        entry := AuditEntry(qId, ans, QuestionNotFound);
        invalidQIds := invalidQIds + [qId];
      } else {
        var q := questionsMap[qId];
        if !Present(q.correct) {
          entry := AuditEntry(qId, ans, NoCorrectAnswer);
        } else {
          var isCorrect := ans.value == Upper(q.correct.value);
          if isCorrect {
            totalMarks := totalMarks + 1;
          }
          entry := AuditEntry(qId, ans, Graded(isCorrect));
        }
      }
      assert (processed + [entry])[..|processed|] == processed;
      processed := processed + [entry];
      assert answers[..i + 1] == answers[..i] + [answers[i]];
    }
    assert answers[..|answers|] == answers;
  }

  // ---------------------------------------------------------------------
  // What is saved in `exam_answers`

  function OptionStr(o: Option<string>): Json {
    if o.None? then JNull else JStr(o.value)
  }

  /** One `processed` dict, as `json.dumps` writes it. */
  function EntryJson(e: AuditEntry): Json {
    var head := [("q_id", JInt(e.qId)), ("ans", OptionStr(e.ans))];
    match e.verdict
    case AnswerIsNull => JObject(head + [("valid", JBool(false)), ("reason", JStr("answer_is_null"))])
    case QuestionNotFound => JObject(head + [("valid", JBool(false)), ("reason", JStr("question_not_found"))])
    case NoCorrectAnswer => JObject(head + [("valid", JBool(false)), ("reason", JStr("question_has_no_correct_answer"))])
    case Graded(b) => JObject(head + [("valid", JBool(true)), ("is_correct", JBool(b))])
  }

  function AuditJson(p: seq<AuditEntry>): (j: Json)
    ensures j.JList? && |j.items| == |p|
  {
    JList(seq(|p|, k requires 0 <= k < |p| => EntryJson(p[k])))
  }

  /** The first value stored under `key` in a JSON object. */
  function Field(fields: seq<(string, Json)>, key: string): Option<Json> {
    if fields == [] then None
    else if fields[0].0 == key then Some(fields[0].1)
    else Field(fields[1..], key)
  }

  /** The verdict a saved dict records, read from `valid` and then
      `is_correct` or `reason`. */
  function VerdictFromJson(f: seq<(string, Json)>, valid: bool): Option<Verdict> {
    if valid then
      match Field(f, "is_correct")
      case Some(JBool(b)) => Some(Graded(b))
      case _ => None
    else if Field(f, "reason") == Some(JStr("answer_is_null")) then Some(AnswerIsNull)
    else if Field(f, "reason") == Some(JStr("question_not_found")) then Some(QuestionNotFound)
    else if Field(f, "reason") == Some(JStr("question_has_no_correct_answer")) then Some(NoCorrectAnswer)
    else None
  }

  /** Reads one saved audit dict back. */
  function EntryFromJson(j: Json): Option<AuditEntry> {
    if !j.JObject? then None
    else
      var f := j.fields;
      var q, a, valid := Field(f, "q_id"), Field(f, "ans"), Field(f, "valid");
      if q.None? || !q.value.JInt? || a.None? || valid.None? || !valid.value.JBool? then None
      else
        var ans := if a.value.JStr? then Some(a.value.s) else None;
        match VerdictFromJson(f, valid.value.b)
        case None => None
        case Some(v) => Some(AuditEntry(q.value.i, ans, v))
  }

  /** Every saved dict reads back as the entry it was written from. */
  lemma EntryJsonRoundTrip(e: AuditEntry)
    ensures EntryFromJson(EntryJson(e)) == Some(e)
  {
    var f := EntryJson(e).fields;
    FieldAt(f, "q_id", 0);
    FieldAt(f, "ans", 1);
    FieldAt(f, "valid", 2);
    if e.verdict.Graded? {
      FieldAt(f, "is_correct", 3);
    } else {
      FieldAt(f, "reason", 3);
    }
  }

  /** The first entry under a key is the one `Field` finds. */
  lemma {:induction false} FieldAt(fields: seq<(string, Json)>, key: string, i: nat)
    requires i < |fields| && fields[i].0 == key
    requires forall j :: 0 <= j < i ==> fields[j].0 != key
    ensures Field(fields, key) == Some(fields[i].1)
  {
    if i > 0 {
      FieldAt(fields[1..], key, i - 1);
    }
  }

  // ---------------------------------------------------------------------
  // SubmitExamView.post

  datatype QuizReply =
    | Rejected(status: int)
    | Submitted(marks: nat, totalQuestionsSubmitted: nat, invalidQuestionIds: seq<int>, perQuestion: seq<AuditEntry>)

  /** `questions_map`: the rows whose id was submitted, keyed by id. */
  function QuestionsMap(table: map<int, QuizQuestion>, answers: seq<AnswerItem>): (m: map<int, QuizQuestion>)
    ensures forall k :: 0 <= k < |answers| ==>
      (answers[k].qId in m <==> answers[k].qId in table)
      && (answers[k].qId in m ==> m[answers[k].qId] == table[answers[k].qId])
  {
    var ids := QIds(answers);
    assert forall k :: 0 <= k < |answers| ==> answers[k].qId == ids[k];
    map id | id in table && id in ids :: table[id]
  }

  /** Auditing against the restricted map is auditing against the table. */
  lemma AuditAgainstTable(answers: seq<AnswerItem>, table: map<int, QuizQuestion>)
    ensures AuditAll(answers, QuestionsMap(table, answers)) == AuditAll(answers, table)
  {
    var m := QuestionsMap(table, answers);
    forall k | 0 <= k < |answers|
      ensures Audit(answers[k], m) == Audit(answers[k], table)
    {
    }
  }

  /** The reply and the user table after a submission by the user `who`
      against the question table `table`. */
  function SubmitExam(users: map<string, User>, who: string, payload: Option<seq<RawAnswerItem>>,
                      table: map<int, QuizQuestion>): (out: (QuizReply, map<string, User>))
    ensures ValidatePayload(payload).Err? ==> out == (Rejected(HTTP_400_BAD_REQUEST), users)
    ensures ValidatePayload(payload).Ok? && who !in users ==> out == (Rejected(HTTP_404_NOT_FOUND), users)
    ensures ValidatePayload(payload).Ok? && who in users && users[who].examAttempted ==>
      out == (Rejected(HTTP_403_FORBIDDEN), users)
    ensures ValidatePayload(payload).Ok? && who in users && !users[who].examAttempted ==> out.0.Submitted?
    ensures out.0.Rejected? ==> out.1 == users
    ensures out.0.Submitted? ==>
      && ValidatePayload(payload).Ok? && who in users && !users[who].examAttempted
      && var r := out.0;
      && r.perQuestion == AuditAll(ValidatePayload(payload).value, table)
      && r.totalQuestionsSubmitted == |payload.value| == |r.perQuestion|
      && r.marks == Marks(r.perQuestion) <= r.totalQuestionsSubmitted
      && r.invalidQuestionIds == InvalidIds(r.perQuestion)
      && out.1 == users[who := users[who].(examAttempted := true, examMarks := r.marks,
                                           examAnswers := AuditJson(r.perQuestion))]
  {
    match ValidatePayload(payload)
    case Err(_) => (Rejected(HTTP_400_BAD_REQUEST), users)
    case Ok(answers) =>
      if who !in users then (Rejected(HTTP_404_NOT_FOUND), users)
      else if users[who].examAttempted then (Rejected(HTTP_403_FORBIDDEN), users)
      else
        var processed := AuditAll(answers, QuestionsMap(table, answers));
        AuditAgainstTable(answers, table);
        MarksBound(processed);
        var marks := Marks(processed);
        var user := users[who].(examAttempted := true, examMarks := marks, examAnswers := AuditJson(processed));
        (Submitted(marks, |answers|, InvalidIds(processed), processed), users[who := user])
  }

  /** A user whose submission was accepted can never have another one
      accepted, and a later attempt changes nothing. */
  lemma SecondSubmissionRejected(users: map<string, User>, who: string, first: Option<seq<RawAnswerItem>>,
                                 second: Option<seq<RawAnswerItem>>, table: map<int, QuizQuestion>)
    requires SubmitExam(users, who, first, table).0.Submitted?
    ensures var after := SubmitExam(users, who, first, table).1;
      && after[who].examAttempted
      && SubmitExam(after, who, second, table).0.Rejected?
      && SubmitExam(after, who, second, table).1 == after
  {
    var after := SubmitExam(users, who, first, table).1;
    assert who in after && after[who].examAttempted;
  }

  /** The saved `exam_answers` reads back as `per_question`, entry by entry. */
  lemma SavedAnswersReadBack(users: map<string, User>, who: string, payload: Option<seq<RawAnswerItem>>,
                             table: map<int, QuizQuestion>, k: nat)
    requires SubmitExam(users, who, payload, table).0.Submitted?
    requires k < |SubmitExam(users, who, payload, table).0.perQuestion|
    ensures var out := SubmitExam(users, who, payload, table);
      EntryFromJson(out.1[who].examAnswers.items[k]) == Some(out.0.perQuestion[k])
  {
    var out := SubmitExam(users, who, payload, table);
    EntryJsonRoundTrip(out.0.perQuestion[k]);
  }

  /** `SubmitExamView.post`, updating the locked user row in place. */
  method SubmitExamView(store: UserStore, who: string, payload: Option<seq<RawAnswerItem>>,
                        table: map<int, QuizQuestion>) returns (reply: QuizReply)
    requires store.Valid()
    modifies store
    ensures store.Valid()
    ensures (reply, store.users) == SubmitExam(old(store.users), who, payload, table)
  {
    var validated := ValidatePayload(payload);
    if validated.Err? {
      return Rejected(HTTP_400_BAD_REQUEST);
    }
    var answers := validated.value;
    if who !in store.users {
      return Rejected(HTTP_404_NOT_FOUND);
    }
    var lockedUser := store.users[who];
    if lockedUser.examAttempted {
      return Rejected(HTTP_403_FORBIDDEN);
    }
    var questionsMap := QuestionsMap(table, answers);
    var totalMarks, processed, invalidQIds := GradeAnswers(answers, questionsMap);
    lockedUser := lockedUser.(examAttempted := true, examMarks := totalMarks, examAnswers := AuditJson(processed));
    store.users := store.users[who := lockedUser];
    reply := Submitted(totalMarks, |answers|, invalidQIds, processed);
  }
}
