/**
 * The records of the evaluation application as they are held in the JSON store
 * (src/types.ts). Ids are numbers in the store; the response form types them as
 * strings, but JavaScript object keys coerce both to the same key, so one `int` serves.
 */
module Types {
  import opened Js

  datatype QuestionType = Text | Scale | MultipleChoice

  /** A question of an evaluation (its `label` is `prompt` here, `label` being a Dafny keyword); `options` is present only once an option was added. */
  datatype Question = Question(id: int, kind: QuestionType, prompt: string, options: Option<seq<string>>)

  /** An evaluation definition. `dueDate` is a `YYYY-MM-DD` string; evaluations built by
      the evaluation editor carry none. */
  datatype Evaluation = Evaluation(
    id: int,
    title: string,
    isCurrent: bool,
    questions: seq<Question>,
    dueDate: Option<string>)

  /** A scalar answer as parsed from the store: a string, a number, or the number NaN. */
  datatype AnswerValue = Str(s: string) | Number(x: real) | NaN

  /** One submitted set of answers, keyed by question label. */
  datatype EvaluationResponse = EvaluationResponse(
    author: string,
    evaluationName: string,
    answers: map<string, AnswerValue>)

  /** An employee record. `role` is 'admin' or 'employee' in the type, but it is whatever
      string the store holds. */
  datatype Employee = Employee(
    id: int,
    name: string,
    email: string,
    position: string,
    username: string,
    password: string,
    role: string)

  const AdminRole := "admin"
  const EmployeeRole := "employee"

  /** No two records share an id. */
  predicate UniqueIds(ids: seq<int>) {
    forall i, j :: 0 <= i < j < |ids| ==> ids[i] != ids[j]
  }

  function EvaluationIds(evals: seq<Evaluation>): (r: seq<int>)
    ensures |r| == |evals| && forall i :: 0 <= i < |evals| ==> r[i] == evals[i].id
  {
    seq(|evals|, i requires 0 <= i < |evals| => evals[i].id)
  }

  function EmployeeIds(employees: seq<Employee>): (r: seq<int>)
    ensures |r| == |employees| && forall i :: 0 <= i < |employees| ==> r[i] == employees[i].id
  {
    seq(|employees|, i requires 0 <= i < |employees| => employees[i].id)
  }
}
