/**
 * The evaluation calls to the JSON store (src/services/evaluationService.ts), and the
 * delete-by-id filter that it shares with the evaluation editor.
 */
module EvaluationService {
  import opened Js
  import opened Types

  /** `evaluations.filter(evaluation => evaluation.id !== id)`. */
  function WithoutEvaluation(evaluations: seq<Evaluation>, id: int): (r: seq<Evaluation>)
    ensures forall e :: e in r ==> e in evaluations && e.id != id
  {
    Filter(evaluations, (e: Evaluation) => e.id != id)
  }

  /** Deleting keeps every evaluation with another id as often as it occurs, in order, and
      keeps none with the deleted id. */
  lemma WithoutEvaluationExact(evaluations: seq<Evaluation>, more: seq<Evaluation>, id: int, e: Evaluation)
    ensures multiset(WithoutEvaluation(evaluations, id))[e] == if e.id != id then multiset(evaluations)[e] else 0
    ensures WithoutEvaluation(evaluations + more, id) == WithoutEvaluation(evaluations, id) + WithoutEvaluation(more, id)
  {
    FilterCount(evaluations, (e: Evaluation) => e.id != id, e);
    FilterAppend(evaluations, more, (e: Evaluation) => e.id != id);
  }

  /** Deleting an id that no evaluation has leaves the list as it was. */
  lemma WithoutAbsentEvaluation(evaluations: seq<Evaluation>, id: int)
    requires forall i :: 0 <= i < |evaluations| ==> evaluations[i].id != id
    ensures WithoutEvaluation(evaluations, id) == evaluations
  {
    FilterAll(evaluations, (e: Evaluation) => e.id != id);
  }

  /** Deleting the same id twice is deleting it once. */
  lemma WithoutEvaluationIdempotent(evaluations: seq<Evaluation>, id: int)
    ensures WithoutEvaluation(WithoutEvaluation(evaluations, id), id) == WithoutEvaluation(evaluations, id)
  {
    FilterIdempotent(evaluations, (e: Evaluation) => e.id != id);
  }

  /** `fetchEvaluations`: the stored list on an ok response; any failure is logged and the
      call resolves to `undefined`. It never rejects. */
  function FetchEvaluations(response: Response<seq<Evaluation>>): (r: Settled<seq<Evaluation>>)
    ensures !r.Thrown?
    ensures r.Value? <==> response.Ok?
    ensures r.Value? ==> r.value == response.record
  {
    match response
    case Ok(record) => Value(record)
    case NotOk => Undefined
    case Rejected(_) => Undefined
  }

  /** `deleteEvaluation(id, evaluations)`: PUTs the filtered list and resolves to it when the
      response is ok; a non-ok response or a rejected fetch is caught and the call resolves
      to `undefined`. It never rejects. */
  function DeleteEvaluation(id: int, evaluations: seq<Evaluation>, response: Response<()>): (r: Settled<seq<Evaluation>>)
    ensures !r.Thrown?
    ensures r.Value? <==> response.Ok?
    ensures r.Value? ==> r.value == WithoutEvaluation(evaluations, id)
  {
    var updatedEvaluations := WithoutEvaluation(evaluations, id);
    if response.Ok? then Value(updatedEvaluations) else Undefined
  }
}
