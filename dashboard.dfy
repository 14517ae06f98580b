/**
 * Chart data of the dashboard (src/components/Dashboard.tsx): a yes/no tally of the
 * answers to one question, and the average numeric leadership score of each author.
 */
module Dashboard {
  import opened Js
  import opened Types

  const LeadershipQuestion := "¿Cómo calificaría su capacidad de liderazgo?"
  const DelegationQuestion := "¿Confía y delega responsabilidades en su equipo?"

  datatype Tally = Tally(yes: nat, no: nat)

  /** `curr.answers[question] === word`: the answer is present and is exactly that string. */
  predicate AnswerIs(r: EvaluationResponse, question: string, word: string) {
    question in r.answers && r.answers[question] == Str(word)
  }

  /** `groupByAnswer(question)`: a left fold over the responses that adds one to `yes` for
      each answer 'si' and one to `no` for each answer 'no'. */
  function GroupByAnswer(data: seq<EvaluationResponse>, question: string): (t: Tally)
    ensures t.yes + t.no <= |data|
    decreases |data|
  {
    if data == [] then Tally(0, 0)
    else
      var acc := GroupByAnswer(data[..|data| - 1], question);
      var curr := data[|data| - 1];
      Tally(acc.yes + (if AnswerIs(curr, question, "si") then 1 else 0),
            acc.no + (if AnswerIs(curr, question, "no") then 1 else 0))
  }

  /** The positions of the responses whose answer to `question` is exactly `word`. */
  ghost function Matching(data: seq<EvaluationResponse>, question: string, word: string): set<int> {
    set i | 0 <= i < |data| && AnswerIs(data[i], question, word)
  }

  lemma MatchingSnoc(data: seq<EvaluationResponse>, question: string, word: string)
    requires data != []
    ensures var n := |data| - 1;
      Matching(data, question, word)
        == Matching(data[..n], question, word) + (if AnswerIs(data[n], question, word) then {n} else {})
  {
  }

  /** The tally counts exactly the responses answering 'si' and exactly those answering 'no';
      every other value, including a missing answer, 'Sí' or a number, counts in neither. */
  lemma {:induction false} GroupByAnswerCounts(data: seq<EvaluationResponse>, question: string)
    ensures GroupByAnswer(data, question).yes == |Matching(data, question, "si")|
    ensures GroupByAnswer(data, question).no == |Matching(data, question, "no")|
    decreases |data|
  {
    if data != [] {
      var n := |data| - 1;
      GroupByAnswerCounts(data[..n], question);
      MatchingSnoc(data, question, "si");
      MatchingSnoc(data, question, "no");
      assert n !in Matching(data[..n], question, "si");
      assert n !in Matching(data[..n], question, "no");
    }
  }

  /** With no 'si' or 'no' answer to the question (in particular with no responses at
      all), the tally is {yes: 0, no: 0}. */
  lemma GroupByAnswerNoMatches(data: seq<EvaluationResponse>, question: string)
    requires forall i :: 0 <= i < |data| ==> !AnswerIs(data[i], question, "si") && !AnswerIs(data[i], question, "no")
    ensures GroupByAnswer(data, question) == Tally(0, 0)
  {
    GroupByAnswerCounts(data, question);
    assert Matching(data, question, "si") == {};
    assert Matching(data, question, "no") == {};
  }

  /** The leadership answer of a response when it is a number other than NaN:
      `typeof leadership === 'number' && !isNaN(leadership)`. Strings such as '7' are not. */
  function Score(r: EvaluationResponse): (s: Option<real>)
    ensures s.Some? <==> LeadershipQuestion in r.answers && r.answers[LeadershipQuestion].Number?
  {
    if LeadershipQuestion in r.answers then
      match r.answers[LeadershipQuestion]
      case Number(x) => Some(x)
      case Str(_) => None
      case NaN => None
    else None
  }

  /** How many numeric leadership answers `author` gave. */
  function Count(data: seq<EvaluationResponse>, author: string): nat
    decreases |data|
  {
    if data == [] then 0
    else
      var d := data[|data| - 1];
      Count(data[..|data| - 1], author) + (if d.author == author && Score(d).Some? then 1 else 0)
  }

  /** The sum of `author`'s numeric leadership answers. */
  function Total(data: seq<EvaluationResponse>, author: string): real
    decreases |data|
  {
    if data == [] then 0.0
    else
      var d := data[|data| - 1];
      Total(data[..|data| - 1], author) + (if d.author == author && Score(d).Some? then Score(d).value else 0.0)
  }

  /** The authors with at least one numeric answer, in the order in which each first gave
      one: the insertion order of the JavaScript `Map` the dashboard fills. */
  function ScoredAuthors(data: seq<EvaluationResponse>): seq<string>
    decreases |data|
  {
    if data == [] then []
    else
      var prev := ScoredAuthors(data[..|data| - 1]);
      var d := data[|data| - 1];
      if Score(d).Some? && d.author !in prev then prev + [d.author] else prev
  }

  /** An author is listed exactly when they gave at least one numeric answer, and no author
      is listed twice: each emitted entry has a count of at least one. */
  lemma {:induction false} ScoredAuthorsExact(data: seq<EvaluationResponse>)
    ensures forall a :: a in ScoredAuthors(data) <==> Count(data, a) >= 1
    ensures forall i, j :: 0 <= i < j < |ScoredAuthors(data)| ==> ScoredAuthors(data)[i] != ScoredAuthors(data)[j]
    decreases |data|
  {
    if data != [] {
      ScoredAuthorsExact(data[..|data| - 1]);
    }
  }

  /** An author with no numeric answer has a total of zero. */
  lemma {:induction false} NoScoreNoTotal(data: seq<EvaluationResponse>, author: string)
    requires Count(data, author) == 0
    ensures Total(data, author) == 0.0
    decreases |data|
  {
    if data != [] {
      NoScoreNoTotal(data[..|data| - 1], author);
    }
  }

  /** One value of `leadershipScoresMap`. */
  datatype Entry = Entry(author: string, totalLeadership: real, count: int)

  /** The `forEach` that fills `leadershipScoresMap`: `order` is the map's insertion order
      and `scores` its contents. Repeated authors are merged by accumulation. */
  method AccumulateLeadership(data: seq<EvaluationResponse>) returns (order: seq<string>, scores: map<string, Entry>)
    ensures order == ScoredAuthors(data)
    ensures scores.Keys == set a | a in order
    ensures forall a :: a in scores ==> scores[a] == Entry(a, Total(data, a), Count(data, a))
  {
    order, scores := [], map[];
    var i := 0;
    while i < |data|
      invariant 0 <= i <= |data|
      invariant order == ScoredAuthors(data[..i])
      invariant scores.Keys == set a | a in order
      invariant forall a :: a in scores ==> scores[a] == Entry(a, Total(data[..i], a), Count(data[..i], a))
    {
      var d := data[i];
      var author := d.author;
      assert data[..i + 1][..i] == data[..i] && data[..i + 1][i] == d;
      assert forall a :: Total(data[..i + 1], a) == Total(data[..i], a) + (if author == a && Score(d).Some? then Score(d).value else 0.0);
      assert forall a :: Count(data[..i + 1], a) == Count(data[..i], a) + (if author == a && Score(d).Some? then 1 else 0);
      if Score(d).Some? {
        var leadership := Score(d).value;
        if author in scores {
          var existing := scores[author];
          scores := scores[author := Entry(existing.author, existing.totalLeadership + leadership, existing.count + 1)];
        } else {
          ScoredAuthorsExact(data[..i]);
          NoScoreNoTotal(data[..i], author);
          scores := scores[author := Entry(author, leadership, 1)];
          order := order + [author];
        }
      }
      i := i + 1;
    }
    assert data[..|data|] == data;
  }

  datatype AuthorScore = AuthorScore(author: string, leadership: real)

  /** `leadershipScores`: one bar per author, in first-appearance order, whose height is the
      author's average numeric answer. Authors without a numeric answer get no bar, and the
      `count > 0 ? ... : 0` fallback is never taken. */
  method LeadershipScores(data: seq<EvaluationResponse>) returns (scores: seq<AuthorScore>)
    ensures |scores| == |ScoredAuthors(data)|
    ensures forall i :: 0 <= i < |scores| ==>
      var a := ScoredAuthors(data)[i];
      scores[i].author == a && Count(data, a) >= 1 && scores[i].leadership == Total(data, a) / Count(data, a) as real
  {
    var order, entries := AccumulateLeadership(data);
    ScoredAuthorsExact(data);
    scores := seq(|order|, i requires 0 <= i < |order| =>
      var entry := entries[order[i]];
      AuthorScore(entry.author, if entry.count > 0 then entry.totalLeadership / entry.count as real else 0.0));
  }
}
