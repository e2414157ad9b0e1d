/** The letter-answer exam's question rows and the validation of a submitted
    answers payload (core/quiz/serializers.py, over core/quiz/models.py). */
module QuizSerializers {
  import opened Common

  /** A `QuizQuestion` row: four optional option texts and an optional
      correct letter (the column is nullable and may be blank). */
  datatype QuizQuestion = QuizQuestion(
    id: int,
    text: string,
    optionA: Option<string>,
    optionB: Option<string>,
    optionC: Option<string>,
    optionD: Option<string>,
    correct: Option<string>)

  /** The fields `QuestionSerializer` exposes, in declaration order. */
  const QuestionFields: seq<string> := ["id", "text", "option_a", "option_b", "option_c", "option_d"]

  function OptionJson(o: Option<string>): Json {
    match o
    case None => JNull
    case Some(s) => JStr(s)
  }

  /** `QuestionSerializer(q).data`: exactly the declared fields, in order;
      the correct answer is not among them. */
  function SerializeQuestion(q: QuizQuestion): (r: seq<(string, Json)>)
    ensures |r| == |QuestionFields|
    ensures forall k :: 0 <= k < |r| ==> r[k].0 == QuestionFields[k] && r[k].0 != "correct"
  {
    [("id", JInt(q.id)), ("text", JStr(q.text)), ("option_a", OptionJson(q.optionA)),
     ("option_b", OptionJson(q.optionB)), ("option_c", OptionJson(q.optionC)),
     ("option_d", OptionJson(q.optionD))]
  }

  /** What an examinee is shown does not depend on the stored correct answer. */
  lemma SerializeHidesCorrect(q: QuizQuestion, c: Option<string>)
    ensures SerializeQuestion(q.(correct := c)) == SerializeQuestion(q)
  {
  }

  // ---------------------------------------------------------------------
  // AnswerItemSerializer.validate_ans

  /** The four answer letters, in option order. */
  const Letters: string := "ABCD"

  predicate IsLetter(c: char) {
    'A' <= c <= 'D'
  }

  /** A character that `upper()` turns into one of the answer letters. */
  predicate IsLetterAnyCase(c: char) {
    'A' <= c <= 'D' || 'a' <= c <= 'd'
  }

  lemma UpperIsAnswer(s: string)
    ensures Upper(s) in ["A", "B", "C", "D"] <==> |s| == 1 && IsLetterAnyCase(s[0])
  {
    if |s| == 1 {
      assert Upper(s) == [UpperChar(s[0])];
    } else {
      assert forall l :: l in ["A", "B", "C", "D"] ==> |l| == 1;
    }
  }

  /** The answers `validate_ans` accepts: after stripping, a single letter
      a-d in either case. */
  predicate AcceptableAns(value: string) {
    var s := Strip(value); |s| == 1 && IsLetterAnyCase(s[0])
  }

  /** `validate_ans`: strip, upper-case, and accept one of A, B, C, D. */
  function ValidateAns(value: string): (r: Result<string, string>)
    ensures r.Ok? <==> AcceptableAns(value)
    ensures r.Ok? ==> r.value == [UpperChar(Strip(value)[0])] && IsLetter(r.value[0])
  {
    var v := Upper(Strip(value));
    UpperIsAnswer(Strip(value));
    if v in ["A", "B", "C", "D"] then Ok(v) else Err("Answer must be one of A, B, C, D.")
  }

  /** Validating an accepted answer again returns the same letter. */
  lemma ValidateAnsIdempotent(value: string)
    requires ValidateAns(value).Ok?
    ensures ValidateAns(ValidateAns(value).value) == ValidateAns(value)
  {
    var v := ValidateAns(value).value;
    assert !IsPySpace(v[0]);
    assert TrimLeft(v) == v;
    assert TrimRight(v) == v;
    assert Strip(v) == v;
  }

  lemma {:induction false} TrimLeftSkipsSpaces(pre: string, s: string)
    requires forall k :: 0 <= k < |pre| ==> IsPySpace(pre[k])
    ensures TrimLeft(pre + s) == TrimLeft(s)
  {
    if pre != [] {
      assert (pre + s)[0] == pre[0];
      assert (pre + s)[1..] == pre[1..] + s;
      TrimLeftSkipsSpaces(pre[1..], s);
    } else {
      assert pre + s == s;
    }
  }

  lemma {:induction false} TrimRightSkipsSpaces(s: string, post: string)
    requires forall k :: 0 <= k < |post| ==> IsPySpace(post[k])
    ensures TrimRight(s + post) == TrimRight(s)
  {
    if post != [] {
      assert (s + post)[|s + post| - 1] == post[|post| - 1];
      assert (s + post)[..|s + post| - 1] == s + post[..|post| - 1];
      TrimRightSkipsSpaces(s, post[..|post| - 1]);
    } else {
      assert s + post == s;
    }
  }

  lemma StripPaddedChar(pre: string, c: char, post: string)
    requires forall k :: 0 <= k < |pre| ==> IsPySpace(pre[k])
    requires forall k :: 0 <= k < |post| ==> IsPySpace(post[k])
    requires !IsPySpace(c)
    ensures Strip(pre + [c] + post) == [c]
  {
    assert pre + [c] + post == pre + ([c] + post);
    TrimLeftSkipsSpaces(pre, [c] + post);
    assert TrimLeft([c] + post) == [c] + post;
    TrimRightSkipsSpaces([c], post);
    assert TrimRight([c]) == [c];
  }

  /** A letter a-d in either case, with any surrounding whitespace, is
      accepted as the upper-case letter. */
  lemma AcceptsPaddedLetter(pre: string, c: char, post: string)
    requires forall k :: 0 <= k < |pre| ==> IsPySpace(pre[k])
    requires forall k :: 0 <= k < |post| ==> IsPySpace(post[k])
    requires IsLetterAnyCase(c)
    ensures ValidateAns(pre + [c] + post) == Ok([UpperChar(c)])
  {
    assert !IsPySpace(c);
    StripPaddedChar(pre, c, post);
  }

  // ---------------------------------------------------------------------
  // SubmitAnswersSerializer.validate_answers

  /** One `{q_id, ans}` entry as it arrives in the payload. */
  datatype RawAnswerItem = RawAnswerItem(qId: int, ans: string)

  /** One entry of `validated_data['answers']`; the view reads `ans` with
      `.get`, so its absence is representable. */
  datatype AnswerItem = AnswerItem(qId: int, ans: Option<string>)

  datatype PayloadError = AnswersRequired | InvalidAnswer(index: nat) | DuplicateQuestionIds

  function QIds(items: seq<AnswerItem>): (ids: seq<int>)
    ensures |ids| == |items| && forall k :: 0 <= k < |items| ==> ids[k] == items[k].qId
  {
    seq(|items|, k requires 0 <= k < |items| => items[k].qId)
  }

  predicate Distinct(ids: seq<int>) {
    forall i, j :: 0 <= i < j < |ids| ==> ids[i] != ids[j]
  }

  function ToSet(ids: seq<int>): set<int> {
    set x | x in ids
  }

  lemma {:induction false} ToSetSize(ids: seq<int>)
    ensures |ToSet(ids)| <= |ids|
  {
    if ids != [] {
      var p := ids[..|ids| - 1];
      assert ToSet(ids) == ToSet(p) + {ids[|ids| - 1]};
      ToSetSize(p);
    }
  }

  /** `len(q_ids) == len(set(q_ids))` holds exactly when no id repeats. */
  lemma {:induction false} DistinctIffSetSize(ids: seq<int>)
    ensures |ToSet(ids)| == |ids| <==> Distinct(ids)
  {
    if ids != [] {
      var p, x := ids[..|ids| - 1], ids[|ids| - 1];
      assert ToSet(ids) == ToSet(p) + {x};
      ToSetSize(p);
      DistinctIffSetSize(p);
      if x in p {
        var i :| 0 <= i < |p| && p[i] == x;
        assert ids[i] == ids[|ids| - 1];
      } else {
        assert Distinct(p) ==> Distinct(ids);
      }
    }
  }

  /** `validate_answers`: reject a list in which a q_id occurs twice, else
      return it unchanged. */
  function ValidateAnswers(items: seq<AnswerItem>): (r: Result<seq<AnswerItem>, PayloadError>)
    ensures r.Ok? <==> Distinct(QIds(items))
    ensures r.Ok? ==> r.value == items
    ensures r.Err? ==> r.error == DuplicateQuestionIds
  {
    var ids := QIds(items);
    DistinctIffSetSize(ids);
    if |ids| != |ToSet(ids)| then Err(DuplicateQuestionIds) else Ok(items)
  }

  /** Index of the first entry from `i` on whose `ans` fails `validate_ans`,
      or `|raw|` when there is none. */
  function FirstRejected(raw: seq<RawAnswerItem>, i: nat): (r: nat)
    requires i <= |raw|
    ensures i <= r <= |raw|
    ensures forall k :: i <= k < r ==> AcceptableAns(raw[k].ans)
    ensures r < |raw| ==> !AcceptableAns(raw[r].ans)
    decreases |raw| - i
  {
    if i == |raw| then i
    else if !AcceptableAns(raw[i].ans) then i
    else FirstRejected(raw, i + 1)
  }

  /** Every entry's `ans` through `validate_ans`, in order; the first
      rejected index is reported. */
  function ValidateItems(raw: seq<RawAnswerItem>): (r: Result<seq<AnswerItem>, nat>)
    ensures r.Ok? <==> forall k :: 0 <= k < |raw| ==> AcceptableAns(raw[k].ans)
    ensures r.Ok? ==> |r.value| == |raw| && forall k :: 0 <= k < |raw| ==>
      r.value[k] == AnswerItem(raw[k].qId, Some(ValidateAns(raw[k].ans).value))
    ensures r.Err? ==> r.error < |raw| && !AcceptableAns(raw[r.error].ans)
  {
    var bad := FirstRejected(raw, 0);
    if bad < |raw| then Err(bad)
    else Ok(seq(|raw|, k requires 0 <= k < |raw| => AnswerItem(raw[k].qId, Some(ValidateAns(raw[k].ans).value))))
  }

  /** `SubmitAnswersSerializer(data=...).is_valid()`: the answers list is
      required, each entry's `ans` must validate, then q_ids must be distinct. */
  function ValidatePayload(answers: Option<seq<RawAnswerItem>>): (r: Result<seq<AnswerItem>, PayloadError>)
    ensures answers.None? ==> r == Err(AnswersRequired)
    ensures r.Ok? <==> answers.Some? && ValidateItems(answers.value).Ok?
                       && Distinct(QIds(ValidateItems(answers.value).value))
    ensures r.Ok? ==> r.value == ValidateItems(answers.value).value
    ensures r.Ok? ==> |r.value| == |answers.value| && Distinct(QIds(r.value))
    ensures r.Ok? ==> forall k :: 0 <= k < |r.value| ==>
      r.value[k].qId == answers.value[k].qId
      && r.value[k].ans.Some? && |r.value[k].ans.value| == 1 && IsLetter(r.value[k].ans.value[0])
  {
    match answers
    case None => Err(AnswersRequired)
    case Some(raw) =>
      match ValidateItems(raw)
      case Err(i) => Err(InvalidAnswer(i))
      case Ok(items) => ValidateAnswers(items)
  }
}
