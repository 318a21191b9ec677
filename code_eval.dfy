/** `CodeEval`: counts entries that pass the base tests and entries that
    pass the extended ("plus") tests, under the modes "best" and "first". */
module CodeEvaluation {
  import opened Values

  datatype Counters = Counters(total: int, totalCorrect: int, totalCorrectPlus: int)

  const Initial := Counters(0, 0, 0)

  predicate WithinTotal(c: Counters) {
    0 <= c.totalCorrect <= c.total && 0 <= c.totalCorrectPlus <= c.total
  }

  predicate IsIncomplete(elem: Record) {
    "is_correct" !in elem || "is_correct-plus" !in elem
  }

  /** The record that stands in for a missing prediction: complete, and
      counted as failing both test suites. */
  function FillUpMissing(): (r: Record)
    ensures r != map[] && !IsIncomplete(r)
  {
    map["is_correct" := JBool(false), "is_correct-plus" := JBool(false)]
  }

  /** A filled-up entry is counted as failing both test suites. */
  lemma FilledEntryCounts(c: Counters, mode: string)
    requires mode in {"best", "first"}
    ensures Step(c, [FillUpMissing()], mode) == (Counters(c.total + 1, c.totalCorrect, c.totalCorrectPlus), Done)
  {
  }

  /** `CodeEval.update(predictions, aggregation_mode)` as a function of the
      counters: the new counters, and whether it raised. */
  function Step(c: Counters, preds: seq<Record>, mode: string): (r: (Counters, Status))
    ensures r.0.total == c.total + 1
    ensures c.totalCorrect <= r.0.totalCorrect <= c.totalCorrect + 1
    ensures c.totalCorrectPlus <= r.0.totalCorrectPlus <= c.totalCorrectPlus + 1
    ensures WithinTotal(c) ==> WithinTotal(r.0)
    ensures mode !in {"best", "first"} ==> r == (c.(total := c.total + 1), Raised(ValueError))
  {
    var c1 := c.(total := c.total + 1);
    if mode == "best" then BestStep(c1, preds)
    else if mode == "first" then FirstStep(c1, preds)
    else (c1, Raised(ValueError))
  }

  /** The "best" branch, from the counters with the entry already counted. */
  function BestStep(c1: Counters, preds: seq<Record>): (r: (Counters, Status))
    ensures r.0.total == c1.total
    ensures c1.totalCorrect <= r.0.totalCorrect <= c1.totalCorrect + 1
    ensures c1.totalCorrectPlus <= r.0.totalCorrectPlus <= c1.totalCorrectPlus + 1
  {
    match Column(preds, "is_correct")
    case Err(e) => (c1, Raised(e))
    case Ok(base) =>
      var c2 := c1.(totalCorrect := c1.totalCorrect + Flag(AnyTruthy(base)));
      match Column(preds, "is_correct-plus")
      case Err(e) => (c2, Raised(e))
      case Ok(plus) => (c2.(totalCorrectPlus := c2.totalCorrectPlus + Flag(AnyTruthy(plus))), Done)
  }

  /** The "first" branch. */
  function FirstStep(c1: Counters, preds: seq<Record>): (r: (Counters, Status))
    ensures r.0.total == c1.total
    ensures c1.totalCorrect <= r.0.totalCorrect <= c1.totalCorrect + 1
    ensures c1.totalCorrectPlus <= r.0.totalCorrectPlus <= c1.totalCorrectPlus + 1
  {
    if |preds| == 0 then (c1, Raised(IndexError))
    else if "is_correct" !in preds[0] then (c1, Raised(KeyError))
    else
      match AddFlag(c1.totalCorrect, preds[0]["is_correct"])
      case Err(e) => (c1, Raised(e))
      case Ok(n) =>
        var c2 := c1.(totalCorrect := n);
        if "is_correct-plus" !in preds[0] then (c2, Raised(KeyError))
        else
          match AddFlag(c2.totalCorrectPlus, preds[0]["is_correct-plus"])
          case Err(e) => (c2, Raised(e))
          case Ok(m) => (c2.(totalCorrectPlus := m), Done)
  }

  /** Step in mode "best" is BestStep after counting the entry. */
  lemma StepBest(c: Counters, preds: seq<Record>)
    ensures Step(c, preds, "best") == BestStep(c.(total := c.total + 1), preds)
  {
  }

  /** BestStep once both columns are read. */
  lemma BestStepOk(c1: Counters, preds: seq<Record>, base: seq<Json>, plus: seq<Json>)
    requires Column(preds, "is_correct") == Ok(base)
    requires Column(preds, "is_correct-plus") == Ok(plus)
    ensures BestStep(c1, preds) == (Counters(c1.total,
      c1.totalCorrect + Flag(AnyTruthy(base)), c1.totalCorrectPlus + Flag(AnyTruthy(plus))), Done)
  {
    var r := BestStep(c1, preds);
    assert r.1 == Done;
    assert r.0.totalCorrect == c1.totalCorrect + Flag(AnyTruthy(base));
    assert r.0.totalCorrectPlus == c1.totalCorrectPlus + Flag(AnyTruthy(plus));
    assert r.0 == Counters(c1.total, c1.totalCorrect + Flag(AnyTruthy(base)), c1.totalCorrectPlus + Flag(AnyTruthy(plus)));
  }

  /** "best": each counter rises exactly when some generation passes. */
  lemma BestMode(c: Counters, preds: seq<Record>)
    requires forall i :: 0 <= i < |preds| ==> "is_correct" in preds[i] && "is_correct-plus" in preds[i]
    ensures Step(c, preds, "best") == (Counters(c.total + 1,
      c.totalCorrect + Flag(SomeTruthy(preds, "is_correct")),
      c.totalCorrectPlus + Flag(SomeTruthy(preds, "is_correct-plus"))), Done)
  {
    var c1 := c.(total := c.total + 1);
    StepBest(c, preds);
    AnyTruthyColumn(preds, "is_correct");
    AnyTruthyColumn(preds, "is_correct-plus");
    var base := Column(preds, "is_correct").value;
    var plus := Column(preds, "is_correct-plus").value;
    BestStepOk(c1, preds, base, plus);
    var r := Step(c, preds, "best");
    assert r.1 == Done;
    assert r.0.total == c.total + 1;
    assert r.0.totalCorrect == c.totalCorrect + Flag(SomeTruthy(preds, "is_correct"));
    assert r.0.totalCorrectPlus == c.totalCorrectPlus + Flag(SomeTruthy(preds, "is_correct-plus"));
  }

  /** "first": each counter rises by the first generation's flag. */
  lemma FirstMode(c: Counters, preds: seq<Record>)
    requires |preds| > 0 && !IsIncomplete(preds[0])
    requires preds[0]["is_correct"].JBool? && preds[0]["is_correct-plus"].JBool?
    ensures Step(c, preds, "first") == (Counters(c.total + 1,
      c.totalCorrect + Flag(preds[0]["is_correct"].b),
      c.totalCorrectPlus + Flag(preds[0]["is_correct-plus"].b)), Done)
  {
  }

  /** `is_incomplete` is exactly what makes "best" fail: it raises KeyError
      when some generation is incomplete, and returns normally otherwise. */
  lemma BestFailsIffIncomplete(c: Counters, preds: seq<Record>)
    ensures Step(c, preds, "best").1 == Raised(KeyError) <==> exists i :: 0 <= i < |preds| && IsIncomplete(preds[i])
    ensures Step(c, preds, "best").1 != Raised(KeyError) ==> Step(c, preds, "best").1 == Done
  {
    StepBest(c, preds);
  }

  /** `update` never raises RuntimeError, which only `read_predictions`
      raises. */
  lemma NoRuntimeError(c: Counters, preds: seq<Record>, mode: string)
    ensures Step(c, preds, mode).1 != Raised(RuntimeError)
  {
  }

  /** Complete records never make `update` raise KeyError. */
  lemma CompleteNoKeyError(c: Counters, preds: seq<Record>, mode: string)
    requires forall i :: 0 <= i < |preds| ==> !IsIncomplete(preds[i])
    ensures Step(c, preds, mode).1 != Raised(KeyError)
  {
  }

  class CodeEval {
    var total: int
    var totalCorrect: int
    var totalCorrectPlus: int

    function State(): Counters
      reads this
    {
      Counters(total, totalCorrect, totalCorrectPlus)
    }

    constructor ()
      ensures State() == Initial
    {
      total, totalCorrect, totalCorrectPlus := 0, 0, 0;
    }

    method Reset()
      modifies this
      ensures State() == Initial
    {
      totalCorrect := 0;
      totalCorrectPlus := 0;
      total := 0;
    }

    method Update(preds: seq<Record>, mode: string) returns (status: Status)
      modifies this
      ensures (State(), status) == Step(old(State()), preds, mode)
    {
      total := total + 1;
      if mode == "best" {
        var base := Column(preds, "is_correct");
        if base.Err? {
          return Raised(base.error);
        }
        totalCorrect := totalCorrect + Flag(AnyTruthy(base.value));
        var plus := Column(preds, "is_correct-plus");
        if plus.Err? {
          return Raised(plus.error);
        }
        totalCorrectPlus := totalCorrectPlus + Flag(AnyTruthy(plus.value));
        status := Done;
      } else if mode == "first" {
        if |preds| == 0 {
          return Raised(IndexError);
        }
        if "is_correct" !in preds[0] {
          return Raised(KeyError);
        }
        var sum := AddFlag(totalCorrect, preds[0]["is_correct"]);
        if sum.Err? {
          return Raised(sum.error);
        }
        totalCorrect := sum.value;
        if "is_correct-plus" !in preds[0] {
          return Raised(KeyError);
        }
        sum := AddFlag(totalCorrectPlus, preds[0]["is_correct-plus"]);
        if sum.Err? {
          return Raised(sum.error);
        }
        totalCorrectPlus := sum.value;
        status := Done;
      } else {
        status := Raised(ValueError);
      }
    }
  }
}
