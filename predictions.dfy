/** `read_predictions`: turns the lines the prediction files hold for one
    entry into the records handed to an evaluator's `update`, standing in a
    filled-up record for every missing, empty or incomplete line when
    incomplete data is allowed, and raising RuntimeError otherwise. */
module Predictions {
  import opened Values
  import MathEvaluation
  import CodeEvaluation
  import IFEvaluation
  import ArenaEvaluation

  /** Which evaluator class reads the predictions. An IFEval evaluator runs
      either the source's `is_incomplete` (`corrected` false) or the
      corrected one (`corrected` true). */
  datatype EvalKind = MathKind | CodeKind | IFKind(corrected: bool) | ArenaKind

  /** The evaluator whose `update` reads every key that its `is_incomplete`
      reports present: all but IFEval with the source's check. */
  predicate ChecksItsKeys(kind: EvalKind) {
    kind != IFKind(false)
  }

  /** `evaluator.is_incomplete(elem)`; only the IFEval check can raise. */
  function IsIncomplete(kind: EvalKind, elem: Record): (r: Result<bool>)
    ensures r.Err? ==> kind.IFKind? && r.error == TypeError
    ensures !kind.IFKind? ==> r.Ok?
  {
    match kind
    case MathKind => Ok(MathEvaluation.IsIncomplete(elem))
    case CodeKind => Ok(CodeEvaluation.IsIncomplete(elem))
    case IFKind(corrected) =>
      if corrected then IFEvaluation.IsIncomplete(elem) else IFEvaluation.IsIncompleteAsWritten(elem)
    case ArenaKind => Ok(ArenaEvaluation.IsIncomplete(elem))
  }

  /** A record that `read_predictions` passes on unchanged. */
  predicate Usable(kind: EvalKind, elem: Record) {
    elem != map[] && IsIncomplete(kind, elem) == Ok(false)
  }

  /** A line that counts as missing data: absent (its file has ended), an
      empty object, or a record the evaluator reports incomplete. */
  predicate Missing(kind: EvalKind, line: Option<Record>) {
    line.None? || line.value == map[] || IsIncomplete(kind, line.value) == Ok(true)
  }

  /** `evaluator.fill_up_missing()`: a record passed on unchanged. */
  function FillUpMissing(kind: EvalKind): (r: Record)
    ensures Usable(kind, r)
  {
    match kind
    case MathKind => MathEvaluation.FillUpMissing()
    case CodeKind => CodeEvaluation.FillUpMissing()
    case IFKind(_) => IFEvaluation.FillUpMissing()
    case ArenaKind => ArenaEvaluation.FillUpMissing()
  }

  /** One iteration of the loop of `read_predictions`. */
  function ReadLine(kind: EvalKind, line: Option<Record>, allow: bool): (r: Result<Record>)
    ensures r.Ok? ==> Usable(kind, r.value)
    ensures Missing(kind, line) ==> r == (if allow then Ok(FillUpMissing(kind)) else Err(RuntimeError))
    ensures line.Some? && Usable(kind, line.value) ==> r == Ok(line.value)
    ensures !Missing(kind, line) && !Usable(kind, line.value) ==> r == Err(TypeError)
  {
    if line.None? || line.value == map[] then
      if allow then Ok(FillUpMissing(kind)) else Err(RuntimeError)
    else
      match IsIncomplete(kind, line.value)
      case Err(e) => Err(e)
      case Ok(incomplete) =>
        if incomplete then
          if allow then Ok(FillUpMissing(kind)) else Err(RuntimeError)
        else Ok(line.value)
  }

  /** `read_predictions(predictions, evaluator, allow_incomplete)` as a
      function: the records, or the exception of the first line that
      raises. */
  function ReadAll(kind: EvalKind, lines: seq<Option<Record>>, allow: bool): (r: Result<seq<Record>>)
    ensures r.Ok? <==> forall i :: 0 <= i < |lines| ==> ReadLine(kind, lines[i], allow).Ok?
    ensures r.Ok? ==> |r.value| == |lines| && forall i :: 0 <= i < |lines| ==> ReadLine(kind, lines[i], allow) == Ok(r.value[i])
    ensures r.Err? ==> exists i :: (0 <= i < |lines| && ReadLine(kind, lines[i], allow) == Err(r.error) &&
      forall j :: 0 <= j < i ==> ReadLine(kind, lines[j], allow).Ok?)
  {
    if |lines| == 0 then Ok([])
    else
      var init := lines[..|lines| - 1];
      assert forall i :: 0 <= i < |init| ==> init[i] == lines[i];
      match ReadAll(kind, init, allow)
      case Err(e) => Err(e)
      case Ok(data) =>
        match ReadLine(kind, lines[|lines| - 1], allow)
        case Err(e) => Err(e)
        case Ok(rec) =>
          assert forall i :: 0 <= i < |data| ==> (data + [rec])[i] == data[i];
          Ok(data + [rec])
  }

  /** The source's loop, proved to compute ReadAll. */
  method ReadPredictions(kind: EvalKind, lines: seq<Option<Record>>, allow: bool) returns (r: Result<seq<Record>>)
    ensures r == ReadAll(kind, lines, allow)
  {
    var data: seq<Record> := [];
    var i := 0;
    while i < |lines|
      invariant 0 <= i <= |lines|
      invariant ReadAll(kind, lines[..i], allow) == Ok(data)
    {
      ReadAllSnoc(kind, lines, i, allow);
      var elem := ReadOne(kind, lines[i], allow);
      if elem.Err? {
        ReadAllFails(kind, lines, i + 1, allow);
        return Err(elem.error);
      }
      data := data + [elem.value];
      i := i + 1;
    }
    assert lines[..i] == lines;
    r := Ok(data);
  }

  /** The body of the source's loop, on one line. */
  method ReadOne(kind: EvalKind, line: Option<Record>, allow: bool) returns (r: Result<Record>)
    ensures r == ReadLine(kind, line, allow)
  {
    if line.None? || line.value == map[] {
      if !allow {
        return Err(RuntimeError);
      }
      return Ok(FillUpMissing(kind));
    }
    var incomplete := IsIncomplete(kind, line.value);
    if incomplete.Err? {
      return Err(incomplete.error);
    }
    if incomplete.value {
      if !allow {
        return Err(RuntimeError);
      }
      return Ok(FillUpMissing(kind));
    }
    return Ok(line.value);
  }

  /** Reading one more line: the prefix read so far, extended by the line's
      record or cut short by its exception. */
  lemma ReadAllSnoc(kind: EvalKind, lines: seq<Option<Record>>, i: nat, allow: bool)
    requires i < |lines| && ReadAll(kind, lines[..i], allow).Ok?
    ensures var line := ReadLine(kind, lines[i], allow);
      ReadAll(kind, lines[..i + 1], allow) ==
        if line.Err? then Err(line.error) else Ok(ReadAll(kind, lines[..i], allow).value + [line.value])
  {
    assert lines[..i + 1][..i] == lines[..i];
  }

  /** Once a prefix of the lines raises, the whole read raises the same. */
  lemma {:induction false} ReadAllFails(kind: EvalKind, lines: seq<Option<Record>>, n: nat, allow: bool)
    requires n <= |lines| && ReadAll(kind, lines[..n], allow).Err?
    ensures ReadAll(kind, lines, allow) == ReadAll(kind, lines[..n], allow)
    decreases |lines| - n
  {
    if n < |lines| {
      assert lines[..n + 1][..n] == lines[..n];
      ReadAllFails(kind, lines, n + 1, allow);
    } else {
      assert lines[..n] == lines;
    }
  }

  /** Every record handed on is usable; the ones read from present, usable
      lines are handed on unchanged and the others are fill-ups. */
  lemma ReadAllUsable(kind: EvalKind, lines: seq<Option<Record>>, allow: bool)
    requires ReadAll(kind, lines, allow).Ok?
    ensures var data := ReadAll(kind, lines, allow).value;
      forall i :: 0 <= i < |lines| ==> (Usable(kind, data[i]) &&
        if lines[i].Some? && Usable(kind, lines[i].value) then data[i] == lines[i].value else data[i] == FillUpMissing(kind))
  {
  }

  /** Reading the records handed on a second time, even without allowing
      incomplete data, returns them unchanged. */
  lemma ReadAllIdempotent(kind: EvalKind, lines: seq<Option<Record>>, allow: bool)
    requires ReadAll(kind, lines, allow).Ok?
    ensures var data := ReadAll(kind, lines, allow).value;
      ReadAll(kind, Present(data), false) == Ok(data)
  {
    var data := ReadAll(kind, lines, allow).value;
    var again := ReadAll(kind, Present(data), false);
    assert forall i :: 0 <= i < |data| ==> ReadLine(kind, Present(data)[i], false) == Ok(data[i]);
    assert again.Ok?;
    assert again.value == data;
  }

  /** The lines of files that all hold the given records. */
  function Present(data: seq<Record>): (lines: seq<Option<Record>>)
    ensures |lines| == |data| && forall i :: 0 <= i < |data| ==> lines[i] == Some(data[i])
  {
    if data == [] then [] else [Some(data[0])] + Present(data[1..])
  }

  /** Reading raises only RuntimeError, for missing data, or the TypeError
      of the IFEval check; never KeyError. */
  lemma ReadAllNoKeyError(kind: EvalKind, lines: seq<Option<Record>>, allow: bool)
    ensures ReadAll(kind, lines, allow).Err? ==> ReadAll(kind, lines, allow).error in {RuntimeError, TypeError}
  {
    var r := ReadAll(kind, lines, allow);
    if r.Err? {
      var i :| 0 <= i < |lines| && ReadLine(kind, lines[i], allow) == Err(r.error);
    }
  }

  /** With incomplete data allowed, reading never raises RuntimeError. */
  lemma AllowedNeverMissing(kind: EvalKind, lines: seq<Option<Record>>)
    ensures ReadAll(kind, lines, true) != Err(RuntimeError)
  {
    var r := ReadAll(kind, lines, true);
    if r.Err? {
      var i :| 0 <= i < |lines| && ReadLine(kind, lines[i], true) == Err(r.error);
      assert r.error == TypeError;
    }
  }

  /** Without it, a missing line raises RuntimeError unless an earlier line
      raises first. */
  lemma StrictRefusesMissing(kind: EvalKind, lines: seq<Option<Record>>, i: nat)
    requires i < |lines| && Missing(kind, lines[i])
    requires forall j :: 0 <= j < i ==> ReadLine(kind, lines[j], false).Ok?
    ensures ReadAll(kind, lines, false) == Err(RuntimeError)
  {
    var r := ReadAll(kind, lines, false);
    assert !r.Ok?;
    var k :| 0 <= k < |lines| && ReadLine(kind, lines[k], false) == Err(r.error) &&
      forall j :: 0 <= j < k ==> ReadLine(kind, lines[j], false).Ok?;
    assert ReadLine(kind, lines[i], false).Err?;
    assert ReadLine(kind, lines[k], false).Err?;
    assert !(k < i) && !(i < k);
  }

  /** Lines that are all present and usable read the same whether or not
      incomplete data is allowed, and are handed on unchanged. */
  lemma UsableLinesReadUnchanged(kind: EvalKind, data: seq<Record>, allow: bool)
    requires forall i :: 0 <= i < |data| ==> Usable(kind, data[i])
    ensures ReadAll(kind, Present(data), allow) == Ok(data)
  {
    var r := ReadAll(kind, Present(data), allow);
    assert forall i :: 0 <= i < |data| ==> ReadLine(kind, Present(data)[i], allow) == Ok(data[i]);
    assert r.Ok?;
    assert r.value == data;
  }
}
