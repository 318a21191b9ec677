/** `MathEval`: counts entries, correct entries and entries without an
    answer over several generations per problem, under the aggregation modes
    "best", "majority" and "first". */
module MathEvaluation {
  import opened Values

  datatype Counters = Counters(total: int, totalCorrect: int, totalNoAnswer: int)

  const Initial := Counters(0, 0, 0)

  /** Each counter is bounded by the number of entries seen. */
  predicate WithinTotal(c: Counters) {
    0 <= c.totalCorrect <= c.total && 0 <= c.totalNoAnswer <= c.total
  }

  predicate IsIncomplete(elem: Record) {
    "is_correct" !in elem || "predicted_answer" !in elem
  }

  /** The record that stands in for a missing prediction: complete, and
      counted as a wrong entry without an answer. */
  function FillUpMissing(): (r: Record)
    ensures r != map[] && !IsIncomplete(r)
  {
    map["predicted_answer" := JNull, "is_correct" := JBool(false)]
  }

  /** A filled-up entry is counted as a wrong entry without an answer. */
  lemma FilledEntryCounts(c: Counters, mode: string)
    requires mode in {"best", "majority", "first"}
    ensures Step(c, [FillUpMissing()], mode) == (Counters(c.total + 1, c.totalCorrect, c.totalNoAnswer + 1), Done)
  {
  }

  /** An (answer, is_correct) pair voted on in "majority" mode. */
  type Vote = (Json, Json)

  /** `[(e['predicted_answer'], e['is_correct']) for e in preds if
      e['predicted_answer'] is not None]`. */
  function Votes(preds: seq<Record>): (r: Result<seq<Vote>>)
    ensures r.Ok? <==> forall i :: 0 <= i < |preds| ==>
      "predicted_answer" in preds[i] && (preds[i]["predicted_answer"] != JNull ==> "is_correct" in preds[i])
    ensures r.Err? ==> r.error == KeyError
    ensures r.Ok? ==> forall k :: 0 <= k < |r.value| ==> r.value[k].0 != JNull
    ensures r.Ok? ==> (r.value == [] <==> forall i :: 0 <= i < |preds| ==> preds[i]["predicted_answer"] == JNull)
  {
    if |preds| == 0 then Ok([])
    else if "predicted_answer" !in preds[0] then Err(KeyError)
    else if preds[0]["predicted_answer"] == JNull then
      Votes(preds[1..])
    else if "is_correct" !in preds[0] then Err(KeyError)
    else
      match Votes(preds[1..])
      case Err(e) => Err(e)
      case Ok(rest) => Ok([(preds[0]["predicted_answer"], preds[0]["is_correct"])] + rest)
  }

  /** `votes` lists, in order and with repeats, the (answer, is_correct)
      pairs of the records at the increasing positions `idx`, which are
      exactly the positions of the answered records. */
  predicate ListsAnsweredPairs(preds: seq<Record>, votes: seq<Vote>, idx: seq<nat>) {
    |idx| == |votes| && Increasing(idx) && PairsAt(preds, votes, idx) && MarksAnswered(preds, idx)
  }

  predicate Increasing(idx: seq<nat>) {
    forall j, k :: 0 <= j < k < |idx| ==> idx[j] < idx[k]
  }

  /** The `j`-th vote is the pair of the record at `idx[j]`. */
  predicate PairsAt(preds: seq<Record>, votes: seq<Vote>, idx: seq<nat>)
    requires |idx| == |votes|
  {
    forall j :: 0 <= j < |idx| ==> (idx[j] < |preds| &&
      "predicted_answer" in preds[idx[j]] && "is_correct" in preds[idx[j]] &&
      votes[j] == (preds[idx[j]]["predicted_answer"], preds[idx[j]]["is_correct"]))
  }

  /** `idx` holds exactly the positions of the answered records. */
  predicate MarksAnswered(preds: seq<Record>, idx: seq<nat>) {
    forall i :: 0 <= i < |preds| ==> ("predicted_answer" in preds[i] &&
      (i in idx <==> preds[i]["predicted_answer"] != JNull))
  }

  function Shift(idx: seq<nat>): (r: seq<nat>)
    ensures |r| == |idx| && forall j :: 0 <= j < |idx| ==> r[j] == idx[j] + 1
  {
    seq(|idx|, j requires 0 <= j < |idx| => idx[j] + 1)
  }

  /** The positions the comprehension takes its pairs from. */
  lemma {:induction false} AnsweredIndices(preds: seq<Record>, votes: seq<Vote>) returns (idx: seq<nat>)
    requires Votes(preds) == Ok(votes)
    ensures ListsAnsweredPairs(preds, votes, idx)
  {
    if |preds| == 0 {
      idx := [];
    } else if preds[0]["predicted_answer"] == JNull {
      var rest := AnsweredIndices(preds[1..], votes);
      ShiftedIncreasing(rest);
      ShiftedPairs(preds, votes, rest);
      ShiftedMarks(preds, rest);
      idx := Shift(rest);
    } else {
      var rest := AnsweredIndices(preds[1..], votes[1..]);
      ConsIncreasing(rest);
      ConsPairs(preds, votes, rest);
      ConsMarks(preds, rest);
      idx := [0] + Shift(rest);
    }
  }

  lemma ShiftedIncreasing(rest: seq<nat>)
    requires Increasing(rest)
    ensures Increasing(Shift(rest))
  {
  }

  lemma ConsIncreasing(rest: seq<nat>)
    requires Increasing(rest)
    ensures Increasing([0] + Shift(rest))
  {
    var idx := [0] + Shift(rest);
    forall j, k | 0 <= j < k < |idx|
      ensures idx[j] < idx[k]
    {
      assert idx[k] == rest[k - 1] + 1;
      if j > 0 {
        assert idx[j] == rest[j - 1] + 1;
      }
    }
  }

  lemma ShiftedPairs(preds: seq<Record>, votes: seq<Vote>, rest: seq<nat>)
    requires |preds| > 0 && |rest| == |votes| && PairsAt(preds[1..], votes, rest)
    ensures PairsAt(preds, votes, Shift(rest))
  {
    var idx := Shift(rest);
    forall j | 0 <= j < |idx|
      ensures idx[j] < |preds| && preds[idx[j]] == preds[1..][rest[j]]
    {
    }
  }

  lemma ConsPairs(preds: seq<Record>, votes: seq<Vote>, rest: seq<nat>)
    requires |preds| > 0 && "predicted_answer" in preds[0] && "is_correct" in preds[0]
    requires |votes| == |rest| + 1 && votes[0] == (preds[0]["predicted_answer"], preds[0]["is_correct"])
    requires PairsAt(preds[1..], votes[1..], rest)
    ensures PairsAt(preds, votes, [0] + Shift(rest))
  {
    var idx := [0] + Shift(rest);
    forall j | 1 <= j < |idx|
      ensures idx[j] < |preds| && preds[idx[j]] == preds[1..][rest[j - 1]] && votes[j] == votes[1..][j - 1]
    {
      assert idx[j] == rest[j - 1] + 1;
    }
  }

  lemma ShiftedMarks(preds: seq<Record>, rest: seq<nat>)
    requires |preds| > 0 && "predicted_answer" in preds[0] && preds[0]["predicted_answer"] == JNull
    requires MarksAnswered(preds[1..], rest)
    ensures MarksAnswered(preds, Shift(rest))
  {
    forall i | 0 <= i < |preds|
      ensures "predicted_answer" in preds[i] && (i in Shift(rest) <==> preds[i]["predicted_answer"] != JNull)
    {
      if i > 0 {
        assert preds[i] == preds[1..][i - 1];
        ShiftedIn(rest, i);
      } else {
        assert 0 !in Shift(rest);
      }
    }
  }

  lemma ConsMarks(preds: seq<Record>, rest: seq<nat>)
    requires |preds| > 0 && "predicted_answer" in preds[0] && preds[0]["predicted_answer"] != JNull
    requires MarksAnswered(preds[1..], rest)
    ensures MarksAnswered(preds, [0] + Shift(rest))
  {
    forall i | 0 <= i < |preds|
      ensures "predicted_answer" in preds[i] && (i in [0] + Shift(rest) <==> preds[i]["predicted_answer"] != JNull)
    {
      if i > 0 {
        assert preds[i] == preds[1..][i - 1];
        ShiftedIn(rest, i);
        assert i in [0] + Shift(rest) <==> i in Shift(rest);
      }
    }
  }

  lemma ShiftedIn(rest: seq<nat>, i: nat)
    requires i > 0
    ensures i in Shift(rest) <==> i - 1 in rest
  {
    if i - 1 in rest {
      var j :| 0 <= j < |rest| && rest[j] == i - 1;
      assert Shift(rest)[j] == i;
    }
  }

  /** The votes are exactly the (answer, is_correct) pairs of the answered
      generations, in order and with repeats, which is what the counting of
      `most_common` depends on. */
  lemma {:induction false} VotesAreAnsweredPairs(preds: seq<Record>, votes: seq<Vote>)
    requires Votes(preds) == Ok(votes)
    ensures exists idx :: ListsAnsweredPairs(preds, votes, idx)
    ensures forall v :: v in votes ==>
      exists i :: 0 <= i < |preds| && preds[i]["predicted_answer"] != JNull && v == (preds[i]["predicted_answer"], preds[i]["is_correct"])
    ensures forall i :: 0 <= i < |preds| && preds[i]["predicted_answer"] != JNull ==>
      (preds[i]["predicted_answer"], preds[i]["is_correct"]) in votes
  {
    var idx := AnsweredIndices(preds, votes);
    if |preds| > 0 {
      assert forall i :: 1 <= i < |preds| ==> preds[1..][i - 1] == preds[i];
      if preds[0]["predicted_answer"] == JNull {
        VotesAreAnsweredPairs(preds[1..], votes);
      } else {
        VotesAreAnsweredPairs(preds[1..], votes[1..]);
        assert votes == [votes[0]] + votes[1..];
      }
    }
  }

  predicate Hashable(j: Json) {
    !j.JObj?
  }

  predicate AllHashable(vs: seq<Vote>) {
    forall k :: 0 <= k < |vs| ==> Hashable(vs[k].0) && Hashable(vs[k].1)
  }

  /** `k` is the position of a most frequent vote, and no earlier position
      holds a vote as frequent: the vote `most_common(1)` returns, which is
      the first inserted among the most frequent ones. */
  predicate IsMajorityIndex(vs: seq<Vote>, k: nat) {
    k < |vs| &&
    (forall j :: 0 <= j < |vs| ==> multiset(vs)[vs[j]] <= multiset(vs)[vs[k]]) &&
    (forall j :: 0 <= j < k ==> multiset(vs)[vs[j]] < multiset(vs)[vs[k]])
  }

  function MostCommonFrom(vs: seq<Vote>, i: nat, best: nat): (k: nat)
    requires best < i <= |vs|
    requires forall j :: 0 <= j < i ==> multiset(vs)[vs[j]] <= multiset(vs)[vs[best]]
    requires forall j :: 0 <= j < best ==> multiset(vs)[vs[j]] < multiset(vs)[vs[best]]
    ensures IsMajorityIndex(vs, k)
    decreases |vs| - i
  {
    if i == |vs| then best
    else if multiset(vs)[vs[i]] > multiset(vs)[vs[best]] then MostCommonFrom(vs, i + 1, i)
    else MostCommonFrom(vs, i + 1, best)
  }

  /** `Counter(vs).most_common(1)[0][0]`, as a position in `vs`. */
  function MostCommonIndex(vs: seq<Vote>): (k: nat)
    requires |vs| > 0
    ensures IsMajorityIndex(vs, k)
  {
    MostCommonFrom(vs, 1, 0)
  }

  /** At most one position satisfies IsMajorityIndex, so the majority vote
      is determined by the votes alone. */
  lemma MajorityIndexUnique(vs: seq<Vote>, k1: nat, k2: nat)
    requires IsMajorityIndex(vs, k1) && IsMajorityIndex(vs, k2)
    ensures k1 == k2
  {
    assert multiset(vs)[vs[k2]] <= multiset(vs)[vs[k1]];
    assert multiset(vs)[vs[k1]] <= multiset(vs)[vs[k2]];
  }

  /** `MathEval.update(predictions, aggregation_mode)` as a function of the
      counters: the new counters, and whether it raised. */
  function Step(c: Counters, preds: seq<Record>, mode: string): (r: (Counters, Status))
    ensures r.0.total == c.total + 1
    ensures c.totalCorrect <= r.0.totalCorrect <= c.totalCorrect + 1
    ensures c.totalNoAnswer <= r.0.totalNoAnswer <= c.totalNoAnswer + 1
    ensures WithinTotal(c) ==> WithinTotal(r.0)
    ensures mode !in {"best", "majority", "first"} ==> r == (c.(total := c.total + 1), Raised(ValueError))
  {
    var c1 := c.(total := c.total + 1);
    if mode == "best" then BestStep(c1, preds)
    else if mode == "majority" then MajorityStep(c1, preds)
    else if mode == "first" then FirstStep(c1, preds)
    else (c1, Raised(ValueError))
  }

  /** The "best" branch, from the counters with the entry already counted. */
  function BestStep(c1: Counters, preds: seq<Record>): (r: (Counters, Status))
    ensures r.0.total == c1.total
    ensures c1.totalCorrect <= r.0.totalCorrect <= c1.totalCorrect + 1
    ensures c1.totalNoAnswer <= r.0.totalNoAnswer <= c1.totalNoAnswer + 1
  {
    match Column(preds, "is_correct")
    case Err(e) => (c1, Raised(e))
    case Ok(flags) =>
      var c2 := c1.(totalCorrect := c1.totalCorrect + Flag(AnyTruthy(flags)));
      match Column(preds, "predicted_answer")
      case Err(e) => (c2, Raised(e))
      case Ok(answers) =>
        (c2.(totalNoAnswer := c2.totalNoAnswer + Flag(AllNull(answers))), Done)
  }

  /** The "majority" branch. */
  function MajorityStep(c1: Counters, preds: seq<Record>): (r: (Counters, Status))
    ensures r.0.total == c1.total
    ensures c1.totalCorrect <= r.0.totalCorrect <= c1.totalCorrect + 1
    ensures c1.totalNoAnswer <= r.0.totalNoAnswer <= c1.totalNoAnswer + 1
    ensures r.0.totalCorrect == c1.totalCorrect || r.0.totalNoAnswer == c1.totalNoAnswer
  {
    match Votes(preds)
    case Err(e) => (c1, Raised(e))
    case Ok(votes) =>
      if |votes| == 0 then (c1.(totalNoAnswer := c1.totalNoAnswer + 1), Done)
      else if !AllHashable(votes) then (c1, Raised(TypeError))
      else
        match AddFlag(c1.totalCorrect, votes[MostCommonIndex(votes)].1)
        case Err(e) => (c1, Raised(e))
        case Ok(n) => (c1.(totalCorrect := n), Done)
  }

  /** The "first" branch. */
  function FirstStep(c1: Counters, preds: seq<Record>): (r: (Counters, Status))
    ensures r.0.total == c1.total
    ensures c1.totalCorrect <= r.0.totalCorrect <= c1.totalCorrect + 1
    ensures c1.totalNoAnswer <= r.0.totalNoAnswer <= c1.totalNoAnswer + 1
  {
    if |preds| == 0 then (c1, Raised(IndexError))
    else if "is_correct" !in preds[0] then (c1, Raised(KeyError))
    else
      match AddFlag(c1.totalCorrect, preds[0]["is_correct"])
      case Err(e) => (c1, Raised(e))
      case Ok(n) =>
        var c2 := c1.(totalCorrect := n);
        if "predicted_answer" !in preds[0] then (c2, Raised(KeyError))
        else (c2.(totalNoAnswer := c2.totalNoAnswer + Flag(preds[0]["predicted_answer"] == JNull)), Done)
  }

  /** Step in mode "best" is BestStep after counting the entry. */
  lemma StepBest(c: Counters, preds: seq<Record>)
    ensures Step(c, preds, "best") == BestStep(c.(total := c.total + 1), preds)
  {
  }

  /** BestStep once both columns are read. */
  lemma BestStepOk(c1: Counters, preds: seq<Record>, flags: seq<Json>, answers: seq<Json>)
    requires Column(preds, "is_correct") == Ok(flags)
    requires Column(preds, "predicted_answer") == Ok(answers)
    ensures BestStep(c1, preds) == (Counters(c1.total,
      c1.totalCorrect + Flag(AnyTruthy(flags)), c1.totalNoAnswer + Flag(AllNull(answers))), Done)
  {
    var r := BestStep(c1, preds);
    assert r.1 == Done;
    assert r.0.totalCorrect == c1.totalCorrect + Flag(AnyTruthy(flags));
    assert r.0.totalNoAnswer == c1.totalNoAnswer + Flag(AllNull(answers));
    assert r.0 == Counters(c1.total, c1.totalCorrect + Flag(AnyTruthy(flags)), c1.totalNoAnswer + Flag(AllNull(answers)));
  }

  /** "best": an entry is correct when some generation is, and unanswered
      when no generation has an answer. */
  lemma BestMode(c: Counters, preds: seq<Record>)
    requires forall i :: 0 <= i < |preds| ==> "is_correct" in preds[i] && "predicted_answer" in preds[i]
    ensures Step(c, preds, "best") == (Counters(c.total + 1,
      c.totalCorrect + Flag(SomeTruthy(preds, "is_correct")),
      c.totalNoAnswer + Flag(AllNullAt(preds, "predicted_answer"))), Done)
  {
    var c1 := c.(total := c.total + 1);
    StepBest(c, preds);
    AnyTruthyColumn(preds, "is_correct");
    AllNullColumn(preds, "predicted_answer");
    var flags := Column(preds, "is_correct").value;
    var answers := Column(preds, "predicted_answer").value;
    BestStepOk(c1, preds, flags, answers);
    var r := Step(c, preds, "best");
    assert r.1 == Done;
    assert r.0.total == c.total + 1;
    assert r.0.totalCorrect == c.totalCorrect + Flag(SomeTruthy(preds, "is_correct"));
    assert r.0.totalNoAnswer == c.totalNoAnswer + Flag(AllNullAt(preds, "predicted_answer"));
  }

  /** "majority" with no answered generation: the entry is unanswered. */
  lemma MajorityNoAnswer(c: Counters, preds: seq<Record>)
    requires forall i :: 0 <= i < |preds| ==> "predicted_answer" in preds[i] && preds[i]["predicted_answer"] == JNull
    ensures Step(c, preds, "majority") == (Counters(c.total + 1, c.totalCorrect, c.totalNoAnswer + 1), Done)
  {
  }

  /** "majority" with answered generations: the entry is as correct as the
      most frequent (answer, is_correct) pair, ties going to the pair seen
      first; the no-answer counter is untouched. */
  lemma MajorityVote(c: Counters, preds: seq<Record>, votes: seq<Vote>, k: nat)
    requires Votes(preds) == Ok(votes) && votes != [] && AllHashable(votes)
    requires IsMajorityIndex(votes, k) && votes[k].1.JBool?
    ensures Step(c, preds, "majority") == (Counters(c.total + 1, c.totalCorrect + Flag(votes[k].1.b), c.totalNoAnswer), Done)
  {
    var c1 := c.(total := c.total + 1);
    assert Step(c, preds, "majority") == MajorityStep(c1, preds);
    MajorityIndexUnique(votes, k, MostCommonIndex(votes));
    var r := MajorityStep(c1, preds);
    assert r.1 == Done;
    assert r.0.totalCorrect == c.totalCorrect + Flag(votes[k].1.b);
    assert r.0 == Counters(c.total + 1, c.totalCorrect + Flag(votes[k].1.b), c.totalNoAnswer);
  }

  /** "first": only the first generation counts. */
  lemma FirstMode(c: Counters, preds: seq<Record>)
    requires |preds| > 0 && !IsIncomplete(preds[0]) && preds[0]["is_correct"].JBool?
    ensures Step(c, preds, "first") == (Counters(c.total + 1,
      c.totalCorrect + Flag(preds[0]["is_correct"].b),
      c.totalNoAnswer + Flag(preds[0]["predicted_answer"] == JNull)), Done)
  {
  }

  /** "first" over no generations fails on `predictions[0]`, after counting
      the entry. */
  lemma FirstModeEmpty(c: Counters)
    ensures Step(c, [], "first") == (c.(total := c.total + 1), Raised(IndexError))
  {
  }

  /** `is_incomplete` is exactly what makes "best" fail: it raises KeyError
      when some generation is incomplete, and returns normally otherwise. */
  lemma BestFailsIffIncomplete(c: Counters, preds: seq<Record>)
    ensures Step(c, preds, "best").1 == Raised(KeyError) <==> exists i :: 0 <= i < |preds| && IsIncomplete(preds[i])
    ensures Step(c, preds, "best").1 != Raised(KeyError) ==> Step(c, preds, "best").1 == Done
  {
    StepBest(c, preds);
  }

  /** `update` never raises RuntimeError, which only `read_predictions`
      raises. */
  lemma NoRuntimeError(c: Counters, preds: seq<Record>, mode: string)
    ensures Step(c, preds, mode).1 != Raised(RuntimeError)
  {
  }

  /** Complete records never make `update` raise KeyError. */
  lemma CompleteNoKeyError(c: Counters, preds: seq<Record>, mode: string)
    requires forall i :: 0 <= i < |preds| ==> !IsIncomplete(preds[i])
    ensures Step(c, preds, mode).1 != Raised(KeyError)
  {
  }

  class MathEval {
    var total: int
    var totalCorrect: int
    var totalNoAnswer: int

    function State(): Counters
      reads this
    {
      Counters(total, totalCorrect, totalNoAnswer)
    }

    constructor ()
      ensures State() == Initial
    {
      total, totalCorrect, totalNoAnswer := 0, 0, 0;
    }

    method Reset()
      modifies this
      ensures State() == Initial
    {
      totalCorrect := 0;
      totalNoAnswer := 0;
      total := 0;
    }

    method Update(preds: seq<Record>, mode: string) returns (status: Status)
      modifies this
      ensures (State(), status) == Step(old(State()), preds, mode)
    {
      total := total + 1;
      if mode == "best" {
        var flags := Column(preds, "is_correct");
        if flags.Err? {
          return Raised(flags.error);
        }
        totalCorrect := totalCorrect + Flag(AnyTruthy(flags.value));
        var answers := Column(preds, "predicted_answer");
        if answers.Err? {
          return Raised(answers.error);
        }
        if AllNull(answers.value) {
          totalNoAnswer := totalNoAnswer + 1;
        }
        status := Done;
      } else if mode == "majority" {
        var votes := Votes(preds);
        if votes.Err? {
          return Raised(votes.error);
        }
        if |votes.value| == 0 {
          totalNoAnswer := totalNoAnswer + 1;
          return Done;
        }
        if !AllHashable(votes.value) {
          return Raised(TypeError);
        }
        var majority := votes.value[MostCommonIndex(votes.value)];
        var sum := AddFlag(totalCorrect, majority.1);
        if sum.Err? {
          return Raised(sum.error);
        }
        totalCorrect := sum.value;
        status := Done;
      } else if mode == "first" {
        if |preds| == 0 {
          return Raised(IndexError);
        }
        if "is_correct" !in preds[0] {
          return Raised(KeyError);
        }
        var sum := AddFlag(totalCorrect, preds[0]["is_correct"]);
        if sum.Err? {
          return Raised(sum.error);
        }
        totalCorrect := sum.value;
        if "predicted_answer" !in preds[0] {
          return Raised(KeyError);
        }
        totalNoAnswer := totalNoAnswer + Flag(preds[0]["predicted_answer"] == JNull);
        status := Done;
      } else {
        status := Raised(ValueError);
      }
    }
  }
}
