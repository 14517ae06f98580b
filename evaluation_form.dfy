/**
 * The employee's response form (src/components/EvaluationForm.tsx): which evaluation is
 * shown, how typed responses are kept, when a submission is blocked, and the answer
 * record a submission sends.
 */
module EvaluationForm {
  import opened Js
  import opened Types
  import Dashboard
  import Evaluations

  /** `record.find(evaluation => evaluation.isCurrent)`. */
  function CurrentEvaluation(evaluations: seq<Evaluation>): (r: Option<Evaluation>)
    ensures r.Some? ==> r.value in evaluations && r.value.isCurrent
  {
    Find(evaluations, (e: Evaluation) => e.isCurrent)
  }

  /** The form shows the first current evaluation, and none exactly when no evaluation is
      current. */
  lemma CurrentEvaluationFirst(evaluations: seq<Evaluation>)
    ensures CurrentEvaluation(evaluations).None? <==> forall i :: 0 <= i < |evaluations| ==> !evaluations[i].isCurrent
    ensures CurrentEvaluation(evaluations).Some? ==>
      exists i :: 0 <= i < |evaluations| && evaluations[i] == CurrentEvaluation(evaluations).value
        && forall j :: 0 <= j < i ==> !evaluations[j].isCurrent
  {
    FindFirst(evaluations, (e: Evaluation) => e.isCurrent);
  }

  /** After the admin chooses evaluation `id` (and the store keeps the list it was sent),
      the form shows exactly that evaluation, flagged current. */
  lemma FormShowsToggledEvaluation(evaluations: seq<Evaluation>, id: int, i: int)
    requires UniqueIds(EvaluationIds(evaluations))
    requires 0 <= i < |evaluations| && evaluations[i].id == id
    ensures CurrentEvaluation(Evaluations.ToggleCurrent(evaluations, id)) == Some(evaluations[i].(isCurrent := true))
  {
    var r := Evaluations.ToggleCurrent(evaluations, id);
    Evaluations.ToggleCurrentSingle(evaluations, id);
    CurrentEvaluationFirst(r);
    assert r[i].isCurrent;
    var k :| 0 <= k < |r| && r[k] == CurrentEvaluation(r).value && forall j :: 0 <= j < k ==> !r[j].isCurrent;
    assert k in Evaluations.CurrentPositions(r);
  }

  /** `responses[q.id]?.trim()` is truthy: a response exists and is not whitespace only. */
  predicate Filled(responses: map<int, string>, q: Question) {
    q.id in responses && !IsBlank(responses[q.id])
  }

  /** `evaluation?.questions.every(q => responses[q.id]?.trim())`, taken as a boolean:
      false without an evaluation, true for an evaluation without questions. */
  predicate AllFieldsFilled(evaluation: Option<Evaluation>, responses: map<int, string>)
    ensures AllFieldsFilled(evaluation, responses) ==> (evaluation.Some? &&
      forall i :: 0 <= i < |evaluation.value.questions| ==> HasValue(responses, evaluation.value.questions[i]))
  {
    evaluation.Some? && forall i :: 0 <= i < |evaluation.value.questions| ==> Filled(responses, evaluation.value.questions[i])
  }

  /** `if (value)`: a response exists and is not the empty string. */
  predicate HasValue(responses: map<int, string>, q: Question) {
    q.id in responses && responses[q.id] != ""
  }

  /** The answers object of a submission: for each question in order, its label is set to
      its response when that response is non-empty. */
  function AnswersOf(questions: seq<Question>, responses: map<int, string>): map<string, string>
    decreases |questions|
  {
    if questions == [] then map[]
    else
      var previous := AnswersOf(questions[..|questions| - 1], responses);
      var q := questions[|questions| - 1];
      if HasValue(responses, q) then previous[q.prompt := responses[q.id]] else previous
  }

  /** A label is a key of the answers exactly when some question with that label has a
      non-empty response. */
  lemma {:induction false} AnswersKeys(questions: seq<Question>, responses: map<int, string>, key: string)
    ensures key in AnswersOf(questions, responses) <==>
      exists i :: 0 <= i < |questions| && questions[i].prompt == key && HasValue(responses, questions[i])
    decreases |questions|
  {
    if questions != [] {
      var init := questions[..|questions| - 1];
      AnswersKeys(init, responses, key);
      if exists i :: 0 <= i < |init| && init[i].prompt == key && HasValue(responses, init[i]) {
        var i :| 0 <= i < |init| && init[i].prompt == key && HasValue(responses, init[i]);
        assert questions[i] == init[i];
      }
    }
  }

  /** The value stored under a label is the untrimmed response of the LAST question with
      that label and a non-empty response: a later question overwrites an earlier one. */
  lemma {:induction false} AnswersLastWins(questions: seq<Question>, responses: map<int, string>, i: int)
    requires 0 <= i < |questions| && HasValue(responses, questions[i])
    requires forall j :: i < j < |questions| && questions[j].prompt == questions[i].prompt ==> !HasValue(responses, questions[j])
    ensures questions[i].prompt in AnswersOf(questions, responses)
    ensures AnswersOf(questions, responses)[questions[i].prompt] == responses[questions[i].id]
    decreases |questions|
  {
    var n := |questions| - 1;
    if i < n {
      var init := questions[..n];
      AnswersLastWins(init, responses, i);
    }
  }

  /** The record a submission sends: `{ evaluationName, author, answers }`. */
  datatype AnswerPayload = AnswerPayload(evaluationName: string, author: string, answers: map<string, string>)

  /** A submission is blocked (the "complete every field" alert), or sends one record. */
  datatype Submission = Blocked | Sent(payload: AnswerPayload)

  /** The `forEach` that fills `answers`. */
  method BuildAnswers(questions: seq<Question>, responses: map<int, string>) returns (answers: map<string, string>)
    ensures answers == AnswersOf(questions, responses)
  {
    answers := map[];
    for i := 0 to |questions|
      invariant answers == AnswersOf(questions[..i], responses)
    {
      var question := questions[i];
      assert questions[..i + 1][..i] == questions[..i];
      if question.id in responses && responses[question.id] != "" {
        answers := answers[question.prompt := responses[question.id]];
      }
    }
    assert questions[..|questions|] == questions;
  }

  /** A submitted record as the dashboard reads it back: every answer is a string. */
  function AsStored(payload: AnswerPayload): (r: EvaluationResponse)
    ensures r.author == payload.author && r.answers.Keys == payload.answers.Keys
  {
    EvaluationResponse(payload.author, payload.evaluationName,
      map key | key in payload.answers :: Str(payload.answers[key]))
  }

  /** The form stores every answer as a string, so no submitted record ever contributes a
      numeric leadership score to the dashboard, even for a scale question answered '7'. */
  lemma {:induction false} StoredAnswersAreNotScores(payloads: seq<AnswerPayload>, author: string)
    ensures var data := seq(|payloads|, i requires 0 <= i < |payloads| => AsStored(payloads[i]));
      Dashboard.Count(data, author) == 0 && Dashboard.ScoredAuthors(data) == []
    decreases |payloads|
  {
    var data := seq(|payloads|, i requires 0 <= i < |payloads| => AsStored(payloads[i]));
    if payloads != [] {
      var init := payloads[..|payloads| - 1];
      StoredAnswersAreNotScores(init, author);
      var initData := seq(|init|, i requires 0 <= i < |init| => AsStored(init[i]));
      assert data[..|data| - 1] == initData;
      assert Dashboard.Score(data[|data| - 1]) == None;
    }
  }

  /** The state of the response form. */
  class ResponseForm {
    var evaluation: Option<Evaluation>
    var responses: map<int, string>
    var loading: bool

    constructor ()
      ensures evaluation == None && responses == map[] && loading
    {
      evaluation := None;
      responses := map[];
      loading := true;
    }

    /** The mount-time fetch. The response's `ok` flag is not checked: an ok response
        shows its first current evaluation (or none); a non-ok body, which has no `record`,
        and a rejected fetch both end in the catch. Loading ends either way. */
    method Load(response: Response<seq<Evaluation>>)
      modifies this`evaluation, this`loading
      ensures evaluation == if response.Ok? then CurrentEvaluation(response.record) else old(evaluation)
      ensures !loading
    {
      if response.Ok? {
        evaluation := CurrentEvaluation(response.record);
      }
      loading := false;
    }

    /** `handleResponseChange(id, value)`: one key is set, every other key is unchanged. */
    method HandleResponseChange(id: int, value: string)
      modifies this`responses
      ensures id in responses && responses[id] == value
      ensures forall k :: k != id ==> (k in responses <==> k in old(responses))
      ensures forall k :: k != id && k in responses ==> responses[k] == old(responses)[k]
    {
      responses := responses[id := value];
    }

    /** The Cancelar button: every response is dropped. */
    method Cancel()
      modifies this`responses
      ensures responses == map[]
    {
      responses := map[];
    }

    /** `handleSubmit`. Blocked unless there is an evaluation and every one of its questions
        has a response that is not whitespace only; otherwise it sends the evaluation's title,
        the stored name (or '' when none is stored) and the answers keyed by label. */
    method HandleSubmit(storedName: Option<string>) returns (s: Submission)
      ensures s == Blocked <==> !AllFieldsFilled(evaluation, responses)
      ensures s.Sent? ==> s.payload == AnswerPayload(evaluation.value.title, storedName.GetOr(""),
                                                     AnswersOf(evaluation.value.questions, responses))
    {
      if !AllFieldsFilled(evaluation, responses) {
        return Blocked;
      }
      var author := if storedName.Some? && storedName.value != "" then storedName.value else "";
      var answers := BuildAnswers(evaluation.value.questions, responses);
      s := Sent(AnswerPayload(evaluation.value.title, author, answers));
    }
  }

  /** A record that passed the check answers every question: each question's label is a key
      of the answers it sends. */
  lemma SubmittedAnswersComplete(evaluation: Option<Evaluation>, responses: map<int, string>, i: int)
    requires AllFieldsFilled(evaluation, responses)
    requires 0 <= i < |evaluation.value.questions|
    ensures evaluation.value.questions[i].prompt in AnswersOf(evaluation.value.questions, responses)
  {
    var qs := evaluation.value.questions;
    assert Filled(responses, qs[i]);
    assert responses[qs[i].id] != "";
    AnswersKeys(qs, responses, qs[i].prompt);
  }
}
