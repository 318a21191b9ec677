/** `IFEval`: counts entries whose generations follow all instructions under
    the loose and under the strict evaluation, under the modes "best" and
    "first". */
module IFEvaluation {
  import opened Values

  datatype Counters = Counters(total: int, totalCorrectLoose: int, totalCorrectStrict: int)

  const Initial := Counters(0, 0, 0)

  const FollowAll := "follow_all_instructions"

  predicate WithinTotal(c: Counters) {
    0 <= c.totalCorrectLoose <= c.total && 0 <= c.totalCorrectStrict <= c.total
  }

  /** `IFEval.is_incomplete` as the source writes it: a record without
      `loose_eval` or without `strict_eval` is reported complete. */
  function IsIncompleteAsWritten(elem: Record): (r: Result<bool>)
    ensures ("loose_eval" !in elem || "strict_eval" !in elem) ==> r == Ok(false)
    ensures r == Ok(true) <==> "loose_eval" in elem && "strict_eval" in elem && LacksFollowAll(elem)
    ensures r.Err? ==> r.error == TypeError
  {
    if "loose_eval" !in elem || "strict_eval" !in elem then Ok(false)
    else MissesFollowAll(elem)
  }

  /** `FollowAll not in elem['loose_eval'] or FollowAll not in elem['strict_eval']`,
      for a record holding both; the `in` tests raise on null and booleans. */
  function MissesFollowAll(elem: Record): (r: Result<bool>)
    requires "loose_eval" in elem && "strict_eval" in elem
    ensures r == Ok(true) <==> LacksFollowAll(elem)
    ensures r == Ok(false) <==> HoldsFollowAll(elem)
    ensures r.Err? ==> r.error == TypeError
  {
    match Contains(elem["loose_eval"], FollowAll)
    case Err(e) => Err(e)
    case Ok(inLoose) =>
      if !inLoose then Ok(true)
      else
        match Contains(elem["strict_eval"], FollowAll)
        case Err(e) => Err(e)
        case Ok(inStrict) => Ok(!inStrict)
  }

  /** One of the evaluations is an object or string without `FollowAll`,
      and the other one's `in` test, when it runs, does not raise. */
  predicate LacksFollowAll(elem: Record)
    requires "loose_eval" in elem && "strict_eval" in elem
  {
    Contains(elem["loose_eval"], FollowAll) == Ok(false) ||
    (Contains(elem["loose_eval"], FollowAll) == Ok(true) && Contains(elem["strict_eval"], FollowAll) == Ok(false))
  }

  /** Both evaluations hold `FollowAll`. */
  predicate HoldsFollowAll(elem: Record)
    requires "loose_eval" in elem && "strict_eval" in elem
  {
    Contains(elem["loose_eval"], FollowAll) == Ok(true) && Contains(elem["strict_eval"], FollowAll) == Ok(true)
  }

  /** `IFEval.is_incomplete` as evidently intended: a record without
      `loose_eval` or without `strict_eval` is incomplete too. A record this
      reports complete never makes `update` raise KeyError. */
  function IsIncomplete(elem: Record): (r: Result<bool>)
    ensures r == Ok(false) <==> "loose_eval" in elem && "strict_eval" in elem && HoldsFollowAll(elem)
    ensures r.Err? ==> r.error == TypeError
  {
    if "loose_eval" !in elem || "strict_eval" !in elem then Ok(true)
    else MissesFollowAll(elem)
  }

  /** The record that stands in for a missing prediction: complete, and
      counted as following the instructions under neither evaluation. */
  function FillUpMissing(): (r: Record)
    ensures r != map[] && IsIncomplete(r) == Ok(false) && IsIncompleteAsWritten(r) == Ok(false)
  {
    var r := map["loose_eval" := JObj(map[FollowAll := JBool(false)]),
                 "strict_eval" := JObj(map[FollowAll := JBool(false)])];
    assert "loose_eval" in r;
    r
  }

  /** A filled-up entry is counted as following the instructions under
      neither evaluation. */
  lemma FilledEntryCounts(c: Counters, mode: string)
    requires mode in {"best", "first"}
    ensures Step(c, [FillUpMissing()], mode) == (Counters(c.total + 1, c.totalCorrectLoose, c.totalCorrectStrict), Done)
  {
  }

  /** `IFEval.update(predictions, aggregation_mode)` as a function of the
      counters: the new counters, and whether it raised. */
  function Step(c: Counters, preds: seq<Record>, mode: string): (r: (Counters, Status))
    ensures r.0.total == c.total + 1
    ensures c.totalCorrectLoose <= r.0.totalCorrectLoose <= c.totalCorrectLoose + 1
    ensures c.totalCorrectStrict <= r.0.totalCorrectStrict <= c.totalCorrectStrict + 1
    ensures WithinTotal(c) ==> WithinTotal(r.0)
    ensures mode !in {"best", "first"} ==> r == (c.(total := c.total + 1), Raised(ValueError))
  {
    var c1 := c.(total := c.total + 1);
    if mode == "best" then BestStep(c1, preds)
    else if mode == "first" then FirstStep(c1, preds)
    else (c1, Raised(ValueError))
  }

  /** The "best" branch, from the counters with the entry already counted. */
  function BestStep(c1: Counters, preds: seq<Record>): (r: (Counters, Status))
    ensures r.0.total == c1.total
    ensures c1.totalCorrectLoose <= r.0.totalCorrectLoose <= c1.totalCorrectLoose + 1
    ensures c1.totalCorrectStrict <= r.0.totalCorrectStrict <= c1.totalCorrectStrict + 1
  {
    match NestedColumn(preds, "loose_eval", FollowAll)
    case Err(e) => (c1, Raised(e))
    case Ok(loose) =>
      var c2 := c1.(totalCorrectLoose := c1.totalCorrectLoose + Flag(AnyTruthy(loose)));
      match NestedColumn(preds, "strict_eval", FollowAll)
      case Err(e) => (c2, Raised(e))
      case Ok(strict) => (c2.(totalCorrectStrict := c2.totalCorrectStrict + Flag(AnyTruthy(strict))), Done)
  }

  /** The "first" branch. */
  function FirstStep(c1: Counters, preds: seq<Record>): (r: (Counters, Status))
    ensures r.0.total == c1.total
    ensures c1.totalCorrectLoose <= r.0.totalCorrectLoose <= c1.totalCorrectLoose + 1
    ensures c1.totalCorrectStrict <= r.0.totalCorrectStrict <= c1.totalCorrectStrict + 1
  {
    if |preds| == 0 then (c1, Raised(IndexError))
    else
      match Lookup2(preds[0], "loose_eval", FollowAll)
      case Err(e) => (c1, Raised(e))
      case Ok(loose) =>
        match AddFlag(c1.totalCorrectLoose, loose)
        case Err(e) => (c1, Raised(e))
        case Ok(n) =>
          var c2 := c1.(totalCorrectLoose := n);
          match Lookup2(preds[0], "strict_eval", FollowAll)
          case Err(e) => (c2, Raised(e))
          case Ok(strict) =>
            match AddFlag(c2.totalCorrectStrict, strict)
            case Err(e) => (c2, Raised(e))
            case Ok(m) => (c2.(totalCorrectStrict := m), Done)
  }

  /** Step in mode "best" is BestStep after counting the entry. */
  lemma StepBest(c: Counters, preds: seq<Record>)
    ensures Step(c, preds, "best") == BestStep(c.(total := c.total + 1), preds)
  {
  }

  /** BestStep once both columns are read. */
  lemma BestStepOk(c1: Counters, preds: seq<Record>, loose: seq<Json>, strict: seq<Json>)
    requires NestedColumn(preds, "loose_eval", FollowAll) == Ok(loose)
    requires NestedColumn(preds, "strict_eval", FollowAll) == Ok(strict)
    ensures BestStep(c1, preds) == (Counters(c1.total,
      c1.totalCorrectLoose + Flag(AnyTruthy(loose)), c1.totalCorrectStrict + Flag(AnyTruthy(strict))), Done)
  {
    var r := BestStep(c1, preds);
    assert r.1 == Done;
    assert r.0.totalCorrectLoose == c1.totalCorrectLoose + Flag(AnyTruthy(loose));
    assert r.0.totalCorrectStrict == c1.totalCorrectStrict + Flag(AnyTruthy(strict));
    assert r.0 == Counters(c1.total, c1.totalCorrectLoose + Flag(AnyTruthy(loose)), c1.totalCorrectStrict + Flag(AnyTruthy(strict)));
  }

  /** "best": each counter rises exactly when some generation follows all
      instructions under that evaluation. */
  lemma BestMode(c: Counters, preds: seq<Record>)
    requires forall i :: 0 <= i < |preds| ==> HasNested(preds[i], "loose_eval", FollowAll) && HasNested(preds[i], "strict_eval", FollowAll)
    ensures Step(c, preds, "best") == (Counters(c.total + 1,
      c.totalCorrectLoose + Flag(SomeNestedTruthy(preds, "loose_eval", FollowAll)),
      c.totalCorrectStrict + Flag(SomeNestedTruthy(preds, "strict_eval", FollowAll))), Done)
  {
    var c1 := c.(total := c.total + 1);
    StepBest(c, preds);
    AnyTruthyNested(preds, "loose_eval", FollowAll);
    AnyTruthyNested(preds, "strict_eval", FollowAll);
    var loose := NestedColumn(preds, "loose_eval", FollowAll).value;
    var strict := NestedColumn(preds, "strict_eval", FollowAll).value;
    BestStepOk(c1, preds, loose, strict);
    var r := Step(c, preds, "best");
    assert r.1 == Done;
    assert r.0.total == c.total + 1;
    assert r.0.totalCorrectLoose == c.totalCorrectLoose + Flag(SomeNestedTruthy(preds, "loose_eval", FollowAll));
    assert r.0.totalCorrectStrict == c.totalCorrectStrict + Flag(SomeNestedTruthy(preds, "strict_eval", FollowAll));
  }

  /** "first": each counter rises by the first generation's flag. */
  lemma FirstMode(c: Counters, preds: seq<Record>)
    requires |preds| > 0
    requires HasNested(preds[0], "loose_eval", FollowAll) && HasNested(preds[0], "strict_eval", FollowAll)
    requires preds[0]["loose_eval"].fields[FollowAll].JBool? && preds[0]["strict_eval"].fields[FollowAll].JBool?
    ensures Step(c, preds, "first") == (Counters(c.total + 1,
      c.totalCorrectLoose + Flag(preds[0]["loose_eval"].fields[FollowAll].b),
      c.totalCorrectStrict + Flag(preds[0]["strict_eval"].fields[FollowAll].b)), Done)
  {
  }

  /** `update` never raises RuntimeError, which only `read_predictions`
      raises. */
  lemma NoRuntimeError(c: Counters, preds: seq<Record>, mode: string)
    ensures Step(c, preds, mode).1 != Raised(RuntimeError)
  {
  }

  /** Records reported complete never make `update` raise KeyError. */
  lemma CompleteNoKeyError(c: Counters, preds: seq<Record>, mode: string)
    requires forall i :: 0 <= i < |preds| ==> IsIncomplete(preds[i]) == Ok(false)
    ensures Step(c, preds, mode).1 != Raised(KeyError)
  {
  }

  /** The source's check lets a record without `loose_eval` through as
      complete, and `update` then raises KeyError on it; the intended check
      reports it incomplete, so that it is filled up or refused. */
  lemma AsWrittenLetsKeyErrorThrough()
    ensures var elem := map["strict_eval" := JObj(map[FollowAll := JBool(true)])];
      elem != map[] && IsIncompleteAsWritten(elem) == Ok(false) &&
      Step(Initial, [elem], "first") == (Counters(1, 0, 0), Raised(KeyError)) &&
      Step(Initial, [elem], "best") == (Counters(1, 0, 0), Raised(KeyError)) &&
      IsIncomplete(elem) == Ok(true)
  {
    var elem := map["strict_eval" := JObj(map[FollowAll := JBool(true)])];
    assert "loose_eval" !in elem && "strict_eval" in elem;
  }

  class IFEval {
    var total: int
    var totalCorrectLoose: int
    var totalCorrectStrict: int

    function State(): Counters
      reads this
    {
      Counters(total, totalCorrectLoose, totalCorrectStrict)
    }

    constructor ()
      ensures State() == Initial
    {
      total, totalCorrectLoose, totalCorrectStrict := 0, 0, 0;
    }

    method Reset()
      modifies this
      ensures State() == Initial
    {
      totalCorrectLoose := 0;
      totalCorrectStrict := 0;
      total := 0;
    }

    method Update(preds: seq<Record>, mode: string) returns (status: Status)
      modifies this
      ensures (State(), status) == Step(old(State()), preds, mode)
    {
      total := total + 1;
      if mode == "best" {
        var loose := NestedColumn(preds, "loose_eval", FollowAll);
        if loose.Err? {
          return Raised(loose.error);
        }
        totalCorrectLoose := totalCorrectLoose + Flag(AnyTruthy(loose.value));
        var strict := NestedColumn(preds, "strict_eval", FollowAll);
        if strict.Err? {
          return Raised(strict.error);
        }
        totalCorrectStrict := totalCorrectStrict + Flag(AnyTruthy(strict.value));
        status := Done;
      } else if mode == "first" {
        if |preds| == 0 {
          return Raised(IndexError);
        }
        var flag := Lookup2(preds[0], "loose_eval", FollowAll);
        if flag.Err? {
          return Raised(flag.error);
        }
        var sum := AddFlag(totalCorrectLoose, flag.value);
        if sum.Err? {
          return Raised(sum.error);
        }
        totalCorrectLoose := sum.value;
        flag := Lookup2(preds[0], "strict_eval", FollowAll);
        if flag.Err? {
          return Raised(flag.error);
        }
        sum := AddFlag(totalCorrectStrict, flag.value);
        if sum.Err? {
          return Raised(sum.error);
        }
        totalCorrectStrict := sum.value;
        status := Done;
      } else {
        status := Raised(ValueError);
      }
    }
  }
}
