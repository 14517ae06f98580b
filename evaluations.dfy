/**
 * The admin's evaluation editor (src/components/Evaluations.tsx): drafting questions and
 * their options, saving a new evaluation, deleting one, and choosing the current one.
 * Every handler is one atomic step; where a handler reads `evaluations` after calling
 * `setEvaluations`, it still reads the value from before the call, as a React closure does.
 */
module Evaluations {
  import opened Js
  import opened Types
  import opened EvaluationService

  const QuestionEmptyError := "La pregunta no puede estar vacía."
  const TitleEmptyError := "El título de la evaluación no puede estar vacío."
  const NoQuestionsError := "Debes añadir al menos una pregunta."

  /** The empty draft evaluation; `now` stands for `Date.now()`. Drafts carry no due date. */
  function EmptyEvaluation(now: int): (e: Evaluation)
    ensures e.questions == [] && !e.isCurrent && e.dueDate == None && e.title == ""
  {
    Evaluation(now, "", false, [], None)
  }

  /** The empty draft question: type 'text', empty label, no options. */
  function EmptyQuestion(now: int): (q: Question)
    ensures q.kind == Text && q.prompt == "" && q.options == None
  {
    Question(now, Text, "", None)
  }

  /** `evaluations.map(e => ({ ...e, isCurrent: false }))`. */
  function ClearCurrent(evaluations: seq<Evaluation>): (r: seq<Evaluation>)
    ensures |r| == |evaluations|
    ensures forall i :: 0 <= i < |r| ==> r[i] == evaluations[i].(isCurrent := false)
  {
    seq(|evaluations|, i requires 0 <= i < |evaluations| => evaluations[i].(isCurrent := false))
  }

  /** The list `handleToggleCurrent` sends: each evaluation with `isCurrent` set exactly
      when its id is the chosen one. */
  function ToggleCurrent(evaluations: seq<Evaluation>, id: int): (r: seq<Evaluation>)
    ensures |r| == |evaluations|
    ensures forall i :: 0 <= i < |r| ==> r[i] == evaluations[i].(isCurrent := evaluations[i].id == id)
  {
    seq(|evaluations|, i requires 0 <= i < |evaluations| => evaluations[i].(isCurrent := evaluations[i].id == id))
  }

  /** Positions of the current evaluations of a list. */
  function CurrentPositions(evaluations: seq<Evaluation>): set<int> {
    set i | 0 <= i < |evaluations| && evaluations[i].isCurrent
  }

  /** With unique ids, toggling leaves at most one evaluation current: the one with the
      chosen id, if any; and the ids are untouched. */
  lemma ToggleCurrentSingle(evaluations: seq<Evaluation>, id: int)
    requires UniqueIds(EvaluationIds(evaluations))
    ensures var r := ToggleCurrent(evaluations, id);
      && EvaluationIds(r) == EvaluationIds(evaluations)
      && (forall i :: 0 <= i < |r| && r[i].isCurrent ==> r[i].id == id)
      && |CurrentPositions(r)| <= 1
      && (forall i :: 0 <= i < |evaluations| && evaluations[i].id == id ==> CurrentPositions(r) == {i})
  {
    var r := ToggleCurrent(evaluations, id);
    var ids := EvaluationIds(evaluations);
    if i :| 0 <= i < |evaluations| && evaluations[i].id == id {
      forall j | j in CurrentPositions(r) ensures j == i {
      }
      assert CurrentPositions(r) == {i};
    } else {
      assert CurrentPositions(r) == {};
    }
  }

  /** The list `handleSaveEvaluation` sends, as written: the list from before the
      isCurrent-clearing step, with the draft appended. */
  function SaveBody(evaluations: seq<Evaluation>, draft: Evaluation): (r: seq<Evaluation>)
    ensures |r| == |evaluations| + 1 && r[..|evaluations|] == evaluations && r[|evaluations|] == draft
  {
    evaluations + [draft]
  }

  /** With the "current" switch on, saving does not make the new evaluation the current
      one and does not clear the others: the current evaluations sent are exactly those
      that were current before. */
  lemma SaveBodyKeepsOldCurrent(evaluations: seq<Evaluation>, draft: Evaluation)
    requires !draft.isCurrent
    ensures CurrentPositions(SaveBody(evaluations, draft)) == CurrentPositions(evaluations)
  {
  }

  /** A concrete save: a stored current evaluation, the switch on, and a draft whose flag the
      switch never set. Two evaluations would have to change flag; neither does. */
  lemma SaveBodyCounterexample()
    ensures var stored := [Evaluation(1, "Q1", true, [], None)];
      var draft := Evaluation(2, "Q2", false, [Question(3, Text, "¿?", None)], None);
      var sent := SaveBody(stored, draft);
      sent[0].isCurrent && !sent[1].isCurrent
  {
  }

  /** What saving with the switch evidently intends: when the switch is on, every stored
      evaluation is un-flagged and the draft is sent as the current one. */
  function IntendedSaveBody(evaluations: seq<Evaluation>, draft: Evaluation, isCurrent: bool): (r: seq<Evaluation>)
    ensures |r| == |evaluations| + 1 && r[|evaluations|] == draft.(isCurrent := isCurrent)
  {
    (if isCurrent then ClearCurrent(evaluations) else evaluations) + [draft.(isCurrent := isCurrent)]
  }

  /** With the switch on, the intended list has exactly one current evaluation, the new one;
      with it off, the current evaluations are those stored before. */
  lemma IntendedSaveBodyCurrent(evaluations: seq<Evaluation>, draft: Evaluation, isCurrent: bool)
    ensures isCurrent ==> CurrentPositions(IntendedSaveBody(evaluations, draft, isCurrent)) == {|evaluations|}
    ensures !isCurrent ==> CurrentPositions(IntendedSaveBody(evaluations, draft, isCurrent)) == CurrentPositions(evaluations)
  {
    var r := IntendedSaveBody(evaluations, draft, isCurrent);
    if isCurrent {
      assert forall i :: 0 <= i < |evaluations| ==> r[i] == evaluations[i].(isCurrent := false);
    } else {
      assert r[..|evaluations|] == evaluations;
    }
  }

  /** The state of the evaluation editor. */
  class EvaluationsEditor {
    var evaluations: seq<Evaluation>
    var isCreating: bool
    var newEvaluation: Evaluation
    var newQuestion: Question
    var error: string
    var questions: seq<Question>
    var optionInput: string
    var isCurrent: bool

    /** Nothing ever sets the draft's own `isCurrent` flag (the switch sets a separate
        `isCurrent` state), and drafts carry no due date. */
    ghost predicate Valid()
      reads this
    {
      !newEvaluation.isCurrent && newEvaluation.dueDate == None
    }

    constructor (now: int)
      ensures Valid()
      ensures evaluations == [] && !isCreating && newEvaluation == EmptyEvaluation(now)
      ensures newQuestion == EmptyQuestion(now) && error == "" && questions == []
      ensures optionInput == "" && !isCurrent
    {
      evaluations := [];
      isCreating := false;
      newEvaluation := EmptyEvaluation(now);
      newQuestion := EmptyQuestion(now);
      error := "";
      questions := [];
      optionInput := "";
      isCurrent := false;
    }

    /** `handleCreateEvaluation`: opens the form. */
    method HandleCreateEvaluation()
      requires Valid()
      modifies this
      ensures Valid() && isCreating
      ensures evaluations == old(evaluations) && newEvaluation == old(newEvaluation)
      ensures newQuestion == old(newQuestion) && error == old(error) && questions == old(questions)
      ensures optionInput == old(optionInput) && isCurrent == old(isCurrent)
    {
      isCreating := true;
    }

    /** The title input: `setNewEvaluation({ ...newEvaluation, title })`. */
    method SetTitle(title: string)
      requires Valid()
      modifies this`newEvaluation
      ensures Valid() && newEvaluation == old(newEvaluation).(title := title)
    {
      newEvaluation := newEvaluation.(title := title);
    }

    /** The "current" switch: flips the `isCurrent` state, never the draft's own flag. */
    method ToggleCurrentSwitch()
      requires Valid()
      modifies this`isCurrent
      ensures Valid() && isCurrent == !old(isCurrent)
    {
      isCurrent := !isCurrent;
    }

    /** The question-type select and the question-label input. */
    method SetQuestionDraft(kind: QuestionType, prompt: string)
      requires Valid()
      modifies this`newQuestion
      ensures Valid() && newQuestion == old(newQuestion).(kind := kind, prompt := prompt)
    {
      newQuestion := newQuestion.(kind := kind, prompt := prompt);
    }

    /** `handleOptionChange`. */
    method HandleOptionChange(value: string)
      requires Valid()
      modifies this`optionInput
      ensures Valid() && optionInput == value
    {
      optionInput := value;
    }

    /** `handleAddOption`: a whitespace-only input is ignored; any other input is appended,
        untrimmed, to the draft's options (creating the list if absent) and cleared. */
    method HandleAddOption()
      requires Valid()
      modifies this`newQuestion, this`optionInput
      ensures Valid()
      ensures IsBlank(old(optionInput)) ==> newQuestion == old(newQuestion) && optionInput == old(optionInput)
      ensures !IsBlank(old(optionInput)) ==>
        && newQuestion == old(newQuestion).(options := Some(old(newQuestion).options.GetOr([]) + [old(optionInput)]))
        && optionInput == ""
    {
      if !IsBlank(optionInput) {
        newQuestion := newQuestion.(options := Some(newQuestion.options.GetOr([]) + [optionInput]));
        optionInput := "";
      }
    }

    /** `handleAddQuestion`: a whitespace-only label only sets the error; otherwise the draft
        question is appended to the draft evaluation and to `questions`, the error and the
        option input are cleared and a fresh 'text' question with an empty label is drafted. */
    method HandleAddQuestion(now: int)
      requires Valid()
      modifies this
      ensures Valid()
      ensures evaluations == old(evaluations) && isCreating == old(isCreating) && isCurrent == old(isCurrent)
      ensures IsBlank(old(newQuestion).prompt) ==>
        && error == QuestionEmptyError
        && newEvaluation == old(newEvaluation) && newQuestion == old(newQuestion)
        && questions == old(questions) && optionInput == old(optionInput)
      ensures !IsBlank(old(newQuestion).prompt) ==>
        && newEvaluation == old(newEvaluation).(questions := old(newEvaluation).questions + [old(newQuestion)])
        && questions == old(questions) + [old(newQuestion)]
        && newQuestion == EmptyQuestion(now)
        && error == "" && optionInput == ""
    {
      if IsBlank(newQuestion.prompt) {
        error := QuestionEmptyError;
        return;
      }
      newEvaluation := newEvaluation.(questions := newEvaluation.questions + [newQuestion]);
      questions := questions + [newQuestion];
      newQuestion := EmptyQuestion(now);
      error := "";
      optionInput := "";
    }

    /** `handleSaveEvaluation`. With the switch on, the local list is first replaced by a copy
        with every flag cleared. A blank title is reported before a missing question, and
        neither sends anything. Otherwise the list sent is the list from before the clearing
        with the draft appended; only an ok response replaces the local list with it, closes
        the form and resets the draft. A failed request leaves the cleared copy in place. */
    method HandleSaveEvaluation(response: Response<()>, now: int) returns (sent: Option<seq<Evaluation>>)
      requires Valid()
      modifies this
      ensures Valid()
      ensures newQuestion == old(newQuestion) && questions == old(questions)
      ensures optionInput == old(optionInput) && isCurrent == old(isCurrent)
      ensures var flagsCleared := if old(isCurrent) then ClearCurrent(old(evaluations)) else old(evaluations);
        if IsBlank(old(newEvaluation).title) then
          && sent == None && error == TitleEmptyError && evaluations == flagsCleared
          && newEvaluation == old(newEvaluation) && isCreating == old(isCreating)
        else if old(newEvaluation).questions == [] then
          && sent == None && error == NoQuestionsError && evaluations == flagsCleared
          && newEvaluation == old(newEvaluation) && isCreating == old(isCreating)
        else if response.Ok? then
          && sent == Some(SaveBody(old(evaluations), old(newEvaluation)))
          && evaluations == SaveBody(old(evaluations), old(newEvaluation))
          && !isCreating && newEvaluation == EmptyEvaluation(now) && error == ""
        else
          && sent == Some(SaveBody(old(evaluations), old(newEvaluation)))
          && evaluations == flagsCleared
          && newEvaluation == old(newEvaluation) && isCreating == old(isCreating) && error == old(error)
    {
      var stored := evaluations;
      if isCurrent {
        evaluations := ClearCurrent(stored);
      }
      if IsBlank(newEvaluation.title) {
        error := TitleEmptyError;
        return None;
      }
      if newEvaluation.questions == [] {
        error := NoQuestionsError;
        return None;
      }
      var updatedEvaluations := SaveBody(stored, newEvaluation);
      sent := Some(updatedEvaluations);
      if response.Ok? {
        evaluations := updatedEvaluations;
        isCreating := false;
        newEvaluation := EmptyEvaluation(now);
        error := "";
      }
    }

    /** `handleCancel`: closes the form, resets the draft evaluation and clears the error;
        the draft question is kept. */
    method HandleCancel(now: int)
      requires Valid()
      modifies this
      ensures Valid()
      ensures !isCreating && newEvaluation == EmptyEvaluation(now) && error == ""
      ensures evaluations == old(evaluations) && newQuestion == old(newQuestion) && questions == old(questions)
      ensures optionInput == old(optionInput) && isCurrent == old(isCurrent)
    {
      isCreating := false;
      newEvaluation := EmptyEvaluation(now);
      error := "";
    }

    /** `handleDeleteEvaluation`: sends the list without that id and adopts it only when the
        response is ok; a failure is only logged. */
    method HandleDeleteEvaluation(id: int, response: Response<()>) returns (sent: seq<Evaluation>)
      requires Valid()
      modifies this`evaluations
      ensures Valid()
      ensures sent == WithoutEvaluation(old(evaluations), id)
      ensures evaluations == if response.Ok? then sent else old(evaluations)
    {
      var updatedEvaluations := WithoutEvaluation(evaluations, id);
      sent := updatedEvaluations;
      if response.Ok? {
        evaluations := updatedEvaluations;
      }
    }

    /** `handleToggleCurrent` with `updateEvaluations`: sends the toggled list and, when the
        response is ok, adopts the list the store returns; a failure is only logged. */
    method HandleToggleCurrent(id: int, response: Response<seq<Evaluation>>) returns (sent: seq<Evaluation>)
      requires Valid()
      modifies this`evaluations
      ensures Valid()
      ensures sent == ToggleCurrent(old(evaluations), id)
      ensures evaluations == if response.Ok? then response.record else old(evaluations)
    {
      var updatedEvaluations := ToggleCurrent(evaluations, id);
      sent := updatedEvaluations;
      if response.Ok? {
        evaluations := response.record;
      }
    }
  }
}
