/** The option-list exam's question rows and their serializers
    (core/questions/serializers.py, over core/questions/models.py). */
module QuestionSerializers {
  import opened Common

  /** A `Question` row. `options` holds the list of option texts that
      `validate_options` admits; `correctAnswerIndex` is an unchecked integer. */
  datatype Question = Question(id: int, text: string, options: seq<string>, correctAnswerIndex: int)

  function OptionsJson(options: seq<string>): (j: Json)
    ensures j.JList? && |j.items| == |options|
    ensures forall k :: 0 <= k < |options| ==> j.items[k] == JStr(options[k])
  {
    JList(seq(|options|, k requires 0 <= k < |options| => JStr(options[k])))
  }

  // ---------------------------------------------------------------------
  // QuestionSerializer.validate_options

  datatype OptionsError = NotJson | NotAList | NonStringOption

  predicate AllStrings(items: seq<Json>) {
    forall k :: 0 <= k < |items| ==> items[k].JStr?
  }

  /** `validate_options`: decode the text with `loads` (Python's
      `json.loads`, `None` standing for a `JSONDecodeError`), insist on a
      list, and on a string in every position; return the decoded list. */
  function ValidateOptions(value: string, loads: string -> Option<Json>): (r: Result<seq<string>, OptionsError>)
    ensures loads(value).None? <==> r == Err(NotJson)
    ensures r == Err(NotAList) <==> loads(value).Some? && !loads(value).value.JList?
    ensures r.Ok? <==> loads(value).Some? && loads(value).value.JList? && AllStrings(loads(value).value.items)
    ensures r.Ok? ==> loads(value) == Some(OptionsJson(r.value))
  {
    match loads(value)
    case None => Err(NotJson)
    case Some(decoded) =>
      if !decoded.JList? then Err(NotAList)
      else if !AllStrings(decoded.items) then Err(NonStringOption)
      else
        var options := seq(|decoded.items|, k requires 0 <= k < |decoded.items| => decoded.items[k].s);
        assert OptionsJson(options) == decoded;
        Ok(options)
  }

  /** Text that decodes to a list of strings is accepted as exactly that list. */
  lemma AcceptsStringList(value: string, options: seq<string>, loads: string -> Option<Json>)
    requires loads(value) == Some(OptionsJson(options))
    ensures ValidateOptions(value, loads) == Ok(options)
  {
    var r := ValidateOptions(value, loads);
    assert AllStrings(OptionsJson(options).items);
    assert r.Ok?;
    assert OptionsJson(r.value) == OptionsJson(options);
    assert |r.value| == |options|;
    forall k | 0 <= k < |options|
      ensures r.value[k] == options[k]
    {
      assert OptionsJson(r.value).items[k] == OptionsJson(options).items[k];
    }
    assert r.value == options;
  }

  // ---------------------------------------------------------------------
  // ExamineeQuestionSerializer and ReportQuestionSerializer

  const ExamineeFields: seq<string> := ["id", "text", "options"]
  const ReportFields: seq<string> := ["id", "question", "options", "correctAnswer"]

  /** What an examinee receives: id, text and options only. */
  function ExamineeQuestion(q: Question): (r: seq<(string, Json)>)
    ensures |r| == |ExamineeFields|
    ensures forall k :: 0 <= k < |r| ==> r[k].0 == ExamineeFields[k] && r[k].0 != "correct_answer_index"
  {
    [("id", JInt(q.id)), ("text", JStr(q.text)), ("options", OptionsJson(q.options))]
  }

  /** What an examinee receives does not depend on the correct index. */
  lemma ExamineeHidesCorrectIndex(q: Question, c: int)
    ensures ExamineeQuestion(q.(correctAnswerIndex := c)) == ExamineeQuestion(q)
  {
  }

  /** The report form of a question: `text` renamed `question`, and the
      correct index exposed as `correctAnswer`. */
  function ReportQuestion(q: Question): (r: seq<(string, Json)>)
    ensures |r| == |ReportFields|
    ensures forall k :: 0 <= k < |r| ==> r[k].0 == ReportFields[k]
    ensures r[1].1 == JStr(q.text) && r[3].1 == JInt(q.correctAnswerIndex)
  {
    [("id", JInt(q.id)), ("question", JStr(q.text)), ("options", OptionsJson(q.options)),
     ("correctAnswer", JInt(q.correctAnswerIndex))]
  }
}
