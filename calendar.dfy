/**
 * The due-date calendar of the dashboard (src/components/CalendarComponent.tsx): which
 * days are marked, and what clicking a day and closing the modal do to the view state.
 */
module Calendar {
  import opened Js
  import opened Types

  /** A calendar day as react-calendar passes it. `isoDay` is the value of
      `date.toISOString().slice(0, 10)`, the UTC day key, which is taken as given. */
  datatype Date = Date(millis: int, isoDay: string)

  /** `evaluation.dueDate === formattedDate`; an evaluation without a due date matches no day. */
  predicate DueOn(e: Evaluation, day: string) {
    e.dueDate == Some(day)
  }

  /** The evaluations due on `day`, in their original order. */
  function EvaluationsOn(evaluations: seq<Evaluation>, day: string): (r: seq<Evaluation>)
    ensures forall e :: e in r ==> e in evaluations && DueOn(e, day)
  {
    Filter(evaluations, e => DueOn(e, day))
  }

  /** The filter keeps each evaluation due on `day` as often as it occurs, drops every other
      one, and keeps the original order (filtering a concatenation concatenates the parts). */
  lemma EvaluationsOnExact(evaluations: seq<Evaluation>, more: seq<Evaluation>, day: string, e: Evaluation)
    ensures multiset(EvaluationsOn(evaluations, day))[e] == if DueOn(e, day) then multiset(evaluations)[e] else 0
    ensures EvaluationsOn(evaluations + more, day) == EvaluationsOn(evaluations, day) + EvaluationsOn(more, day)
  {
    FilterCount(evaluations, e => DueOn(e, day), e);
    FilterAppend(evaluations, more, e => DueOn(e, day));
  }

  /** What `tileContent` returns: a red dot, or `null`. */
  datatype Tile = RedDot | NoTile

  function TileContent(evaluations: seq<Evaluation>, date: Date): (t: Tile)
    ensures t == RedDot <==> exists i :: 0 <= i < |evaluations| && DueOn(evaluations[i], date.isoDay)
  {
    if Any(evaluations, e => DueOn(e, date.isoDay)) then RedDot else NoTile
  }

  const HighlightClass := "highlight-red"

  function TileClassName(evaluations: seq<Evaluation>, date: Date): (c: Option<string>)
    ensures c == Some(HighlightClass) <==> exists i :: 0 <= i < |evaluations| && DueOn(evaluations[i], date.isoDay)
    ensures c != Some(HighlightClass) ==> c == None
  {
    if Any(evaluations, e => DueOn(e, date.isoDay)) then Some(HighlightClass) else None
  }

  /** For one day, the dot is shown exactly when the highlight class is set, and exactly
      when clicking that day lists at least one evaluation. */
  lemma MarkersAgree(evaluations: seq<Evaluation>, date: Date)
    ensures TileContent(evaluations, date) == RedDot <==> TileClassName(evaluations, date) == Some(HighlightClass)
    ensures TileContent(evaluations, date) == RedDot <==> EvaluationsOn(evaluations, date.isoDay) != []
  {
    FilterEmptyIffNone(evaluations, e => DueOn(e, date.isoDay));
  }

  /** The state of the calendar component. */
  class CalendarView {
    var evaluations: seq<Evaluation>
    var selectedDate: Option<Date>
    var modalIsOpen: bool
    var evaluationsOnSelectedDate: seq<Evaluation>

    constructor ()
      ensures evaluations == [] && selectedDate == None && !modalIsOpen && evaluationsOnSelectedDate == []
    {
      evaluations := [];
      selectedDate := None;
      modalIsOpen := false;
      evaluationsOnSelectedDate := [];
    }

    /** The mount-time fetch: an ok response replaces the evaluations; a failed one is only
        logged. */
    method Load(response: Response<seq<Evaluation>>)
      modifies this
      ensures evaluations == if response.Ok? then response.record else old(evaluations)
      ensures selectedDate == old(selectedDate) && modalIsOpen == old(modalIsOpen)
      ensures evaluationsOnSelectedDate == old(evaluationsOnSelectedDate)
    {
      if response.Ok? {
        evaluations := response.record;
      }
    }

    /** `handleDateClick`: lists the evaluations due on the clicked day, selects the day and
        opens the modal. */
    method HandleDateClick(date: Date)
      modifies this
      ensures evaluationsOnSelectedDate == EvaluationsOn(evaluations, date.isoDay)
      ensures selectedDate == Some(date) && modalIsOpen
      ensures evaluations == old(evaluations)
    {
      var formattedDate := date.isoDay;
      evaluationsOnSelectedDate := EvaluationsOn(evaluations, formattedDate);
      selectedDate := Some(date);
      modalIsOpen := true;
    }

    /** `closeModal`: only the modal flag changes. */
    method CloseModal()
      modifies this
      ensures !modalIsOpen
      ensures evaluations == old(evaluations) && selectedDate == old(selectedDate)
      ensures evaluationsOnSelectedDate == old(evaluationsOnSelectedDate)
    {
      modalIsOpen := false;
    }
  }
}
