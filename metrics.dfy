/** `compute_metrics`: resets the evaluator, then walks the prediction files
    side by side, one entry per line position, reading each entry's lines
    with `read_predictions` and handing the records to `update`, and stops
    after `max_samples` entries when that is not negative. */
module Metrics {
  import opened Values
  import opened Predictions
  import MathEvaluation
  import CodeEvaluation
  import IFEvaluation
  import ArenaEvaluation

  /** The state of whichever evaluator is in use. */
  datatype EvalState =
    | OfMath(math: MathEvaluation.Counters)
    | OfCode(code: CodeEvaluation.Counters)
    | OfIF(instructions: IFEvaluation.Counters, corrected: bool)
    | OfArena(arena: ArenaEvaluation.Counters)

  function KindOf(s: EvalState): EvalKind {
    match s
    case OfMath(_) => MathKind
    case OfCode(_) => CodeKind
    case OfIF(_, corrected) => IFKind(corrected)
    case OfArena(_) => ArenaKind
  }

  /** The evaluator's `total` field: the number of `update` calls since the
      last `reset`. */
  function Total(s: EvalState): int {
    match s
    case OfMath(c) => c.total
    case OfCode(c) => c.total
    case OfIF(c, _) => c.total
    case OfArena(c) => c.total
  }

  /** The state `reset` leaves. */
  function Initial(kind: EvalKind): (s: EvalState)
    ensures KindOf(s) == kind && Total(s) == 0
  {
    match kind
    case MathKind => OfMath(MathEvaluation.Initial)
    case CodeKind => OfCode(CodeEvaluation.Initial)
    case IFKind(corrected) => OfIF(IFEvaluation.Initial, corrected)
    case ArenaKind => OfArena(ArenaEvaluation.Initial)
  }

  /** `evaluator.update(data, aggregation_mode)`: every call is counted,
      whether or not it raises. */
  function Step(s: EvalState, preds: seq<Record>, mode: string): (r: (EvalState, Status))
    ensures KindOf(r.0) == KindOf(s) && Total(r.0) == Total(s) + 1
  {
    match s
    case OfMath(c) => var (c2, st) := MathEvaluation.Step(c, preds, mode); (OfMath(c2), st)
    case OfCode(c) => var (c2, st) := CodeEvaluation.Step(c, preds, mode); (OfCode(c2), st)
    case OfIF(c, corrected) => var (c2, st) := IFEvaluation.Step(c, preds, mode); (OfIF(c2, corrected), st)
    case OfArena(c) => var (c2, st) := ArenaEvaluation.Step(c, preds, mode); (OfArena(c2), st)
  }

  /** The evaluator object `compute_metrics` is given; for IFEval, which
      `is_incomplete` check it runs. */
  datatype Evaluator =
    | MathEvaluator(math: MathEvaluation.MathEval)
    | CodeEvaluator(code: CodeEvaluation.CodeEval)
    | IFEvaluator(instructions: IFEvaluation.IFEval, corrected: bool)
    | ArenaEvaluator(arena: ArenaEvaluation.ArenaEval)
  {
    function Obj(): object {
      match this
      case MathEvaluator(m) => m
      case CodeEvaluator(m) => m
      case IFEvaluator(m, _) => m
      case ArenaEvaluator(m) => m
    }

    function Kind(): EvalKind {
      match this
      case MathEvaluator(_) => MathKind
      case CodeEvaluator(_) => CodeKind
      case IFEvaluator(_, corrected) => IFKind(corrected)
      case ArenaEvaluator(_) => ArenaKind
    }

    function Snapshot(): (s: EvalState)
      reads Obj()
      ensures KindOf(s) == Kind()
    {
      match this
      case MathEvaluator(m) => OfMath(m.State())
      case CodeEvaluator(m) => OfCode(m.State())
      case IFEvaluator(m, corrected) => OfIF(m.State(), corrected)
      case ArenaEvaluator(m) => OfArena(m.State())
    }
  }

  /** `evaluator.reset()`. */
  method ResetEvaluator(ev: Evaluator)
    modifies ev.Obj()
    ensures ev.Snapshot() == Initial(ev.Kind())
  {
    match ev
    case MathEvaluator(m) => m.Reset();
    case CodeEvaluator(m) => m.Reset();
    case IFEvaluator(m, _) => m.Reset();
    case ArenaEvaluator(m) => m.Reset();
  }

  /** `evaluator.update(data, aggregation_mode)`. */
  method UpdateEvaluator(ev: Evaluator, preds: seq<Record>, mode: string) returns (status: Status)
    modifies ev.Obj()
    ensures (ev.Snapshot(), status) == Step(old(ev.Snapshot()), preds, mode)
  {
    match ev
    case MathEvaluator(m) => status := m.Update(preds, mode);
    case CodeEvaluator(m) => status := m.Update(preds, mode);
    case IFEvaluator(m, _) => status := m.Update(preds, mode);
    case ArenaEvaluator(m) => status := m.Update(preds, mode);
  }

  function Max(a: nat, b: nat): nat {
    if a < b then b else a
  }

  /** The number of tuples `zip_longest` yields: the length of the longest
      file, and none when there are no files. */
  function Longest(files: seq<seq<Record>>): (n: nat)
    ensures forall i :: 0 <= i < |files| ==> |files[i]| <= n
    ensures n == 0 || exists i :: 0 <= i < |files| && |files[i]| == n
  {
    if files == [] then 0
    else
      var rest := Longest(files[1..]);
      assert forall i :: 1 <= i < |files| ==> files[1..][i - 1] == files[i];
      Max(|files[0]|, rest)
  }

  /** The tuple `zip_longest` yields at position `idx`: one line per file,
      None for a file that has already ended. */
  function Row(files: seq<seq<Record>>, idx: nat): (row: seq<Option<Record>>)
    ensures |row| == |files|
  {
    if files == [] then []
    else [if idx < |files[0]| then Some(files[0][idx]) else None] + Row(files[1..], idx)
  }

  lemma {:induction false} RowLines(files: seq<seq<Record>>, idx: nat)
    ensures forall i :: 0 <= i < |files| ==> Row(files, idx)[i] == if idx < |files[i]| then Some(files[i][idx]) else None
  {
    if files != [] {
      RowLines(files[1..], idx);
      assert forall i :: 1 <= i < |files| ==> files[1..][i - 1] == files[i];
    }
  }

  /** `zip_longest` goes on exactly as long as some file still has a line. */
  lemma RowHasLine(files: seq<seq<Record>>, idx: nat)
    ensures idx < Longest(files) <==> exists i :: 0 <= i < |files| && Row(files, idx)[i].Some?
  {
    RowLines(files, idx);
    if idx < Longest(files) {
      var i :| 0 <= i < |files| && |files[i]| == Longest(files);
      assert Row(files, idx)[i].Some?;
    } else {
      forall i | 0 <= i < |files|
        ensures Row(files, idx)[i].None?
      {
        assert |files[i]| <= Longest(files);
      }
    }
  }

  /** How many entries the loop of `compute_metrics` reaches: `idx ==
      max_samples` stops it, which a negative `max_samples` never does. */
  function UpdateCount(rows: nat, maxSamples: int): (n: nat)
    ensures n <= rows && (0 <= maxSamples ==> n <= maxSamples)
    ensures n == rows || n == maxSamples
  {
    if 0 <= maxSamples < rows then maxSamples else rows
  }

  /** One iteration of the loop, on the lines `row` of one entry, after the
      iterations that gave `prev`; nothing happens once one has raised. */
  function Advance(prev: (EvalState, Status), row: seq<Option<Record>>, allow: bool, mode: string): (r: (EvalState, Status))
    ensures KindOf(r.0) == KindOf(prev.0)
  {
    var (s, st) := prev;
    if st.Raised? then prev
    else
      match ReadAll(KindOf(s), row, allow)
      case Err(e) => (s, Raised(e))
      case Ok(data) => Step(s, data, mode)
  }

  /** An iteration from a state that has not raised: a failed read raises
      its exception without touching the state, otherwise `update` runs. */
  lemma AdvanceCases(prev: (EvalState, Status), row: seq<Option<Record>>, allow: bool, mode: string)
    requires prev.1 == Done
    ensures var read := ReadAll(KindOf(prev.0), row, allow);
      Advance(prev, row, allow, mode) == if read.Err? then (prev.0, Raised(read.error)) else Step(prev.0, read.value, mode)
  {
  }

  /** Every iteration that runs counts one more entry. */
  lemma AdvanceCounts(prev: (EvalState, Status), row: seq<Option<Record>>, allow: bool, mode: string)
    ensures var r := Advance(prev, row, allow, mode);
      Total(prev.0) <= Total(r.0) <= Total(prev.0) + 1 &&
      (prev.1.Raised? ==> r == prev) &&
      (r.1 == Done ==> prev.1 == Done && Total(r.0) == Total(prev.0) + 1)
  {
    if prev.1 == Done {
      AdvanceCases(prev, row, allow, mode);
    }
  }

  /** The first `n` iterations of the loop from state `s0`: the state, and
      the exception that ended the loop early, if any. */
  function Run(s0: EvalState, files: seq<seq<Record>>, n: nat, allow: bool, mode: string): (r: (EvalState, Status))
    ensures KindOf(r.0) == KindOf(s0)
  {
    if n == 0 then (s0, Done)
    else Advance(Run(s0, files, n - 1, allow, mode), Row(files, n - 1), allow, mode)
  }

  /** `compute_metrics(files, evaluator, allow_incomplete, max_samples,
      aggregation_mode)` up to `get_metrics`: the evaluator's state after the
      loop, and the exception it propagates, if any. */
  function Compute(kind: EvalKind, files: seq<seq<Record>>, allow: bool, maxSamples: int, mode: string): (r: (EvalState, Status))
    ensures KindOf(r.0) == kind
    ensures 0 <= Total(r.0) <= UpdateCount(Longest(files), maxSamples)
    ensures r.1 == Done ==> Total(r.0) == UpdateCount(Longest(files), maxSamples)
  {
    RunCounts(Initial(kind), files, UpdateCount(Longest(files), maxSamples), allow, mode);
    Run(Initial(kind), files, UpdateCount(Longest(files), maxSamples), allow, mode)
  }

  /** The source's loop, proved to compute Compute. */
  method ComputeMetrics(ev: Evaluator, files: seq<seq<Record>>, allow: bool, maxSamples: int, mode: string)
    returns (status: Status)
    modifies ev.Obj()
    ensures (ev.Snapshot(), status) == Compute(ev.Kind(), files, allow, maxSamples, mode)
  {
    ResetEvaluator(ev);
    ghost var s0 := Initial(ev.Kind());
    var rows := Longest(files);
    ghost var limit := UpdateCount(rows, maxSamples);
    assert Compute(ev.Kind(), files, allow, maxSamples, mode) == Run(s0, files, limit, allow, mode);
    var idx := 0;
    while idx < rows
      invariant 0 <= idx <= limit
      invariant Run(s0, files, idx, allow, mode).1 == Done
      invariant ev.Snapshot() == Run(s0, files, idx, allow, mode).0
    {
      if idx == maxSamples {
        break;
      }
      status := ProcessEntry(ev, s0, files, idx, allow, mode);
      if status.Raised? {
        RunStops(s0, files, idx + 1, limit, allow, mode);
        return;
      }
      idx := idx + 1;
    }
    assert idx == limit;
    status := Done;
  }

  /** One pass of the loop body: `read_predictions` on the entry's lines,
      then `update` on the records. */
  method ProcessEntry(ev: Evaluator, ghost s0: EvalState, files: seq<seq<Record>>, idx: nat, allow: bool, mode: string)
    returns (status: Status)
    requires KindOf(s0) == ev.Kind()
    requires Run(s0, files, idx, allow, mode).1 == Done
    requires ev.Snapshot() == Run(s0, files, idx, allow, mode).0
    modifies ev.Obj()
    ensures (ev.Snapshot(), status) == Run(s0, files, idx + 1, allow, mode)
  {
    var data := ReadPredictions(ev.Kind(), Row(files, idx), allow);
    RunNext(s0, files, idx, allow, mode);
    if data.Err? {
      return Raised(data.error);
    }
    status := UpdateEvaluator(ev, data.value, mode);
  }

  /** The iteration after `n` that did not raise: a failed read raises its
      exception without touching the state, otherwise `update` runs. */
  lemma RunNext(s0: EvalState, files: seq<seq<Record>>, n: nat, allow: bool, mode: string)
    requires Run(s0, files, n, allow, mode).1 == Done
    ensures var prev := Run(s0, files, n, allow, mode).0;
      var read := ReadAll(KindOf(s0), Row(files, n), allow);
      Run(s0, files, n + 1, allow, mode) == if read.Err? then (prev, Raised(read.error)) else Step(prev, read.value, mode)
  {
    AdvanceCases(Run(s0, files, n, allow, mode), Row(files, n), allow, mode);
  }

  /** Once the loop has raised, later positions change nothing. */
  lemma {:induction false} RunStops(s0: EvalState, files: seq<seq<Record>>, n: nat, m: nat, allow: bool, mode: string)
    requires n <= m && Run(s0, files, n, allow, mode).1.Raised?
    ensures Run(s0, files, m, allow, mode) == Run(s0, files, n, allow, mode)
    decreases m - n
  {
    if n < m {
      RunStops(s0, files, n, m - 1, allow, mode);
    }
  }

  /** A loop of `n` iterations calls `update` `n` times when it completes,
      and at most `n` times when it raises. */
  lemma {:induction false} RunCounts(s0: EvalState, files: seq<seq<Record>>, n: nat, allow: bool, mode: string)
    ensures var r := Run(s0, files, n, allow, mode);
      Total(s0) <= Total(r.0) <= Total(s0) + n && (r.1 == Done ==> Total(r.0) == Total(s0) + n)
  {
    if n > 0 {
      var prev := Run(s0, files, n - 1, allow, mode);
      RunCounts(s0, files, n - 1, allow, mode);
      AdvanceCounts(prev, Row(files, n - 1), allow, mode);
      assert Run(s0, files, n, allow, mode) == Advance(prev, Row(files, n - 1), allow, mode);
    }
  }

  /** `update` never raises KeyError on records `read_predictions` hands on,
      unless it is IFEval with the source's check. */
  lemma StepNoKeyError(s: EvalState, preds: seq<Record>, mode: string)
    requires ChecksItsKeys(KindOf(s))
    requires forall i :: 0 <= i < |preds| ==> Usable(KindOf(s), preds[i])
    ensures Step(s, preds, mode).1 != Raised(KeyError)
  {
    match s
    case OfMath(c) => MathEvaluation.CompleteNoKeyError(c, preds, mode);
    case OfCode(c) => CodeEvaluation.CompleteNoKeyError(c, preds, mode);
    case OfIF(c, _) => IFEvaluation.CompleteNoKeyError(c, preds, mode);
    case OfArena(c) => ArenaEvaluation.CompleteNoKeyError(c, preds, mode);
  }

  /** `update` never raises RuntimeError. */
  lemma StepNoRuntimeError(s: EvalState, preds: seq<Record>, mode: string)
    ensures Step(s, preds, mode).1 != Raised(RuntimeError)
  {
    match s
    case OfMath(c) => MathEvaluation.NoRuntimeError(c, preds, mode);
    case OfCode(c) => CodeEvaluation.NoRuntimeError(c, preds, mode);
    case OfIF(c, _) => IFEvaluation.NoRuntimeError(c, preds, mode);
    case OfArena(c) => ArenaEvaluation.NoRuntimeError(c, preds, mode);
  }

  lemma AdvanceNoKeyError(prev: (EvalState, Status), row: seq<Option<Record>>, allow: bool, mode: string)
    requires ChecksItsKeys(KindOf(prev.0))
    requires prev.1 != Raised(KeyError)
    ensures Advance(prev, row, allow, mode).1 != Raised(KeyError)
  {
    var (s, st) := prev;
    var read := ReadAll(KindOf(s), row, allow);
    ReadAllNoKeyError(KindOf(s), row, allow);
    if st == Done && read.Ok? {
      assert forall i :: 0 <= i < |row| ==> ReadLine(KindOf(s), row[i], allow) == Ok(read.value[i]);
      StepNoKeyError(s, read.value, mode);
    }
  }

  lemma {:induction false} RunNoKeyError(s0: EvalState, files: seq<seq<Record>>, n: nat, allow: bool, mode: string)
    requires ChecksItsKeys(KindOf(s0))
    ensures Run(s0, files, n, allow, mode).1 != Raised(KeyError)
  {
    if n > 0 {
      RunNoKeyError(s0, files, n - 1, allow, mode);
      AdvanceNoKeyError(Run(s0, files, n - 1, allow, mode), Row(files, n - 1), allow, mode);
    }
  }

  /** Whatever the files hold, `compute_metrics` never raises KeyError: a
      record missing a key the evaluator reads is refused or filled up by
      `read_predictions` first. This holds for every evaluator but IFEval
      with the source's check (AsWrittenIFRaisesKeyError). */
  lemma NeverKeyError(kind: EvalKind, files: seq<seq<Record>>, allow: bool, maxSamples: int, mode: string)
    requires ChecksItsKeys(kind)
    ensures Compute(kind, files, allow, maxSamples, mode).1 != Raised(KeyError)
  {
    RunNoKeyError(Initial(kind), files, UpdateCount(Longest(files), maxSamples), allow, mode);
  }

  /** An IFEval record with only `strict_eval`. */
  const StrictOnly: Record := map["strict_eval" := JObj(map[IFEvaluation.FollowAll := JBool(true)])]

  /** With the source's IFEval check, KeyError escapes `compute_metrics`: a
      single file whose one line is StrictOnly passes `read_predictions`,
      whether or not incomplete data is allowed, and `update` counts the
      entry and raises. The corrected check refuses the line, or with
      `allow_incomplete` fills it up and counts it normally. */
  lemma AsWrittenIFRaisesKeyError(allow: bool, mode: string)
    requires mode in {"best", "first"}
    ensures Compute(IFKind(false), [[StrictOnly]], allow, -1, mode) == (OfIF(IFEvaluation.Counters(1, 0, 0), false), Raised(KeyError))
    ensures Compute(IFKind(true), [[StrictOnly]], false, -1, mode) == (OfIF(IFEvaluation.Initial, true), Raised(RuntimeError))
    ensures Compute(IFKind(true), [[StrictOnly]], true, -1, mode) == (OfIF(IFEvaluation.Counters(1, 0, 0), true), Done)
  {
    AsWrittenPassesStrictOnly(allow, mode);
    CorrectedRefusesStrictOnly(mode);
    CorrectedFillsUpStrictOnly(mode);
  }

  lemma AsWrittenPassesStrictOnly(allow: bool, mode: string)
    requires mode in {"best", "first"}
    ensures Compute(IFKind(false), [[StrictOnly]], allow, -1, mode) == (OfIF(IFEvaluation.Counters(1, 0, 0), false), Raised(KeyError))
  {
    IFEvaluation.AsWrittenLetsKeyErrorThrough();
    assert "loose_eval" !in StrictOnly && StrictOnly != map[];
    assert IFEvaluation.IsIncompleteAsWritten(StrictOnly) == Ok(false);
    assert ReadLine(IFKind(false), Some(StrictOnly), allow) == Ok(StrictOnly);
    var read := ReadAll(IFKind(false), [Some(StrictOnly)], allow);
    assert read.Ok? && read.value == [StrictOnly];
    OneLineFile(IFKind(false), StrictOnly, allow, mode);
    var r := Step(Initial(IFKind(false)), [StrictOnly], mode);
    assert r.1 == Raised(KeyError);
    assert r.0 == OfIF(IFEvaluation.Counters(1, 0, 0), false);
  }

  lemma CorrectedRefusesStrictOnly(mode: string)
    ensures Compute(IFKind(true), [[StrictOnly]], false, -1, mode) == (OfIF(IFEvaluation.Initial, true), Raised(RuntimeError))
  {
    assert IFEvaluation.IsIncomplete(StrictOnly) == Ok(true);
    assert ReadLine(IFKind(true), Some(StrictOnly), false) == Err(RuntimeError);
    var read := ReadAll(IFKind(true), [Some(StrictOnly)], false);
    assert read == Err(RuntimeError);
    OneLineFile(IFKind(true), StrictOnly, false, mode);
  }

  lemma CorrectedFillsUpStrictOnly(mode: string)
    requires mode in {"best", "first"}
    ensures Compute(IFKind(true), [[StrictOnly]], true, -1, mode) == (OfIF(IFEvaluation.Counters(1, 0, 0), true), Done)
  {
    IFEvaluation.FilledEntryCounts(IFEvaluation.Initial, mode);
    assert IFEvaluation.IsIncomplete(StrictOnly) == Ok(true);
    assert ReadLine(IFKind(true), Some(StrictOnly), true) == Ok(IFEvaluation.FillUpMissing());
    var read := ReadAll(IFKind(true), [Some(StrictOnly)], true);
    assert read.Ok? && read.value == [IFEvaluation.FillUpMissing()];
    OneLineFile(IFKind(true), StrictOnly, true, mode);
    var r := Step(Initial(IFKind(true)), [IFEvaluation.FillUpMissing()], mode);
    assert r.1 == Done;
    assert r.0 == OfIF(IFEvaluation.Counters(1, 0, 0), true);
  }

  /** A single file of one line makes one iteration from the reset state. */
  lemma OneLineFile(kind: EvalKind, elem: Record, allow: bool, mode: string)
    ensures var read := ReadAll(kind, [Some(elem)], allow);
      Compute(kind, [[elem]], allow, -1, mode) ==
        if read.Err? then (Initial(kind), Raised(read.error)) else Step(Initial(kind), read.value, mode)
  {
    var files := [[elem]];
    assert Longest(files) == 1;
    assert Row(files, 0) == [Some(elem)];
    assert Run(Initial(kind), files, 1, allow, mode) ==
      Advance(Run(Initial(kind), files, 0, allow, mode), Row(files, 0), allow, mode);
    AdvanceCases((Initial(kind), Done), [Some(elem)], allow, mode);
  }

  lemma AdvanceNoRuntimeError(prev: (EvalState, Status), row: seq<Option<Record>>, mode: string)
    requires prev.1 != Raised(RuntimeError)
    ensures Advance(prev, row, true, mode).1 != Raised(RuntimeError)
  {
    var (s, st) := prev;
    AllowedNeverMissing(KindOf(s), row);
    var read := ReadAll(KindOf(s), row, true);
    if st == Done && read.Ok? {
      StepNoRuntimeError(s, read.value, mode);
    }
  }

  lemma {:induction false} RunAllowedNoRuntimeError(s0: EvalState, files: seq<seq<Record>>, n: nat, mode: string)
    ensures Run(s0, files, n, true, mode).1 != Raised(RuntimeError)
  {
    if n > 0 {
      RunAllowedNoRuntimeError(s0, files, n - 1, mode);
      AdvanceNoRuntimeError(Run(s0, files, n - 1, true, mode), Row(files, n - 1), mode);
    }
  }

  /** With `allow_incomplete`, missing data never makes `compute_metrics`
      raise RuntimeError. */
  lemma AllowedNeverRaisesMissing(kind: EvalKind, files: seq<seq<Record>>, maxSamples: int, mode: string)
    ensures Compute(kind, files, true, maxSamples, mode).1 != Raised(RuntimeError)
  {
    RunAllowedNoRuntimeError(Initial(kind), files, UpdateCount(Longest(files), maxSamples), mode);
  }

  /** Lines that are all present and usable are read the same either way. */
  lemma ReadAllAllowIrrelevant(kind: EvalKind, row: seq<Option<Record>>)
    requires forall i :: 0 <= i < |row| ==> row[i].Some? && Usable(kind, row[i].value)
    ensures ReadAll(kind, row, true) == ReadAll(kind, row, false)
  {
    var t := ReadAll(kind, row, true);
    var f := ReadAll(kind, row, false);
    assert t.Ok? && f.Ok?;
    assert t.value == f.value;
  }

  /** Below the common length of equally long files every line is present,
      so the entry reads the same either way. */
  lemma RowUsable(kind: EvalKind, files: seq<seq<Record>>, idx: nat)
    requires forall i, j :: 0 <= i < |files| && 0 <= j < |files| ==> |files[i]| == |files[j]|
    requires forall i, k :: 0 <= i < |files| && 0 <= k < |files[i]| ==> Usable(kind, files[i][k])
    requires idx < Longest(files)
    ensures ReadAll(kind, Row(files, idx), true) == ReadAll(kind, Row(files, idx), false)
  {
    var j :| 0 <= j < |files| && |files[j]| == Longest(files);
    var row := Row(files, idx);
    RowLines(files, idx);
    assert forall i :: 0 <= i < |files| ==> row[i] == Some(files[i][idx]);
    ReadAllAllowIrrelevant(kind, row);
  }

  lemma AdvanceAllowIrrelevant(prev: (EvalState, Status), row: seq<Option<Record>>, mode: string)
    requires ReadAll(KindOf(prev.0), row, true) == ReadAll(KindOf(prev.0), row, false)
    ensures Advance(prev, row, true, mode) == Advance(prev, row, false, mode)
  {
  }

  /** Files of equal length whose records are all usable read every entry
      the same whether or not incomplete data is allowed. */
  lemma RowsReadAlike(kind: EvalKind, files: seq<seq<Record>>)
    requires forall i, j :: 0 <= i < |files| && 0 <= j < |files| ==> |files[i]| == |files[j]|
    requires forall i, k :: 0 <= i < |files| && 0 <= k < |files[i]| ==> Usable(kind, files[i][k])
    ensures forall idx :: 0 <= idx < Longest(files) ==> ReadAll(kind, Row(files, idx), true) == ReadAll(kind, Row(files, idx), false)
  {
    forall idx | 0 <= idx < Longest(files)
      ensures ReadAll(kind, Row(files, idx), true) == ReadAll(kind, Row(files, idx), false)
    {
      RowUsable(kind, files, idx);
    }
  }

  /** The first `n` entries read the same whether or not incomplete data is
      allowed. */
  predicate ReadAlike(kind: EvalKind, files: seq<seq<Record>>, n: nat) {
    n == 0 || (ReadAlike(kind, files, n - 1) && ReadAll(kind, Row(files, n - 1), true) == ReadAll(kind, Row(files, n - 1), false))
  }

  lemma {:induction false} ReadAlikeBelow(kind: EvalKind, files: seq<seq<Record>>, n: nat)
    requires forall idx :: 0 <= idx < n ==> ReadAll(kind, Row(files, idx), true) == ReadAll(kind, Row(files, idx), false)
    ensures ReadAlike(kind, files, n)
  {
    if n > 0 {
      ReadAlikeBelow(kind, files, n - 1);
    }
  }

  /** Entries that read alike give loops that run alike. */
  lemma {:induction false} RunAllowIrrelevant(s0: EvalState, files: seq<seq<Record>>, n: nat, mode: string)
    requires ReadAlike(KindOf(s0), files, n)
    ensures Run(s0, files, n, true, mode) == Run(s0, files, n, false, mode)
  {
    if n > 0 {
      assert ReadAlike(KindOf(s0), files, n - 1);
      RunAllowIrrelevant(s0, files, n - 1, mode);
      LastAllowIrrelevant(s0, files, n, mode);
    }
  }

  lemma LastAllowIrrelevant(s0: EvalState, files: seq<seq<Record>>, n: nat, mode: string)
    requires n > 0 && Run(s0, files, n - 1, true, mode) == Run(s0, files, n - 1, false, mode)
    requires ReadAll(KindOf(s0), Row(files, n - 1), true) == ReadAll(KindOf(s0), Row(files, n - 1), false)
    ensures Run(s0, files, n, true, mode) == Run(s0, files, n, false, mode)
  {
    AdvanceAllowIrrelevant(Run(s0, files, n - 1, true, mode), Row(files, n - 1), mode);
  }

  lemma AllowIrrelevantWhenComplete(kind: EvalKind, files: seq<seq<Record>>, maxSamples: int, mode: string)
    requires forall i, j :: 0 <= i < |files| && 0 <= j < |files| ==> |files[i]| == |files[j]|
    requires forall i, k :: 0 <= i < |files| && 0 <= k < |files[i]| ==> Usable(kind, files[i][k])
    ensures Compute(kind, files, true, maxSamples, mode) == Compute(kind, files, false, maxSamples, mode)
  {
    RowsReadAlike(kind, files);
    ReadAlikeBelow(kind, files, UpdateCount(Longest(files), maxSamples));
    RunAllowIrrelevant(Initial(kind), files, UpdateCount(Longest(files), maxSamples), mode);
  }
}
