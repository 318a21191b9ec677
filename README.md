# Metric evaluators of NeMo-Skills, modelled in Dafny

This project models the evaluation-metrics core of NeMo-Skills
(`nemo_skills/evaluation/metrics.py`). That core has three parts.

- **Four evaluator classes.** `MathEval`, `CodeEval`, `IFEval` and `ArenaEval` each keep running counters over the entries of a benchmark. Their methods are `reset`, `update`, `fill_up_missing` and `is_incomplete`; `ArenaEval` also has `_get_judge_score`.
- **`read_predictions`.** It turns the lines that several prediction files hold for one entry into the records given to `update`. With `allow_incomplete`, it stands in a filled-up record for a line that is missing, empty or incomplete. Without it, such a line raises `RuntimeError`.
- **`compute_metrics`.** It resets the evaluator and walks the files side by side, one entry per line position (`zip_longest`). It stops after `max_samples` entries when that is not negative.

What the model uses for Python's values:

- **JSON values** are the datatype `Values.Json`: null, booleans, strings and objects.
- **A parsed line** is a `Record`, a map from keys to JSON values.
- **A Python exception** is an `Error` value. A call returns it as `Raised(e)` or `Err(e)` instead of throwing.

The state an evaluator has reached before it raises is kept. For example, `total += 1` has already happened when `update` raises on a missing key, and the model's state says so.

How each evaluator is modelled:

- **A class** with the source's fields, a constructor, `Reset` and `Update`.
- **A pure specification function `Step`.** It gives the new counters and the status of one `update` call.
- **`Update`'s postcondition** ties the new object state and its status to `Step` applied to the old state.
- **Lemmas about `Step`** state what each aggregation mode does:
  - "best": an entry counts when some generation passes;
  - "majority": the most frequent (answer, is_correct) pair, ties going to the pair seen first;
  - "first": the first generation;
  - the modes the source does not support raise `ValueError`;
  - filled-up records count as wrong or unanswered, or carry no verdict;
  - records reported complete never make `update` raise `KeyError`, except for `IFEval`, whose check as written passes records that lack `loose_eval` or `strict_eval`;
  - `update` never raises `RuntimeError`.

An `IFEval` evaluator carries a flag that says which `is_incomplete` it runs: the one the source writes, or a corrected one (see "## Findings"). `read_predictions` and `compute_metrics` are modelled for both.

`read_predictions` is the method `Predictions.ReadPredictions`, a loop proved to compute the recursive function `Predictions.ReadAll`.

`compute_metrics` is the method `Metrics.ComputeMetrics`. Its loop is proved to compute `Metrics.Compute`, which iterates `Metrics.Advance` over the rows that `zip_longest` yields. Lemmas about `Compute` state four things:

- how many entries are counted;
- that `KeyError` never escapes, for every evaluator but `IFEval` with the check as written, and that it does escape for that one;
- that with `allow_incomplete` `RuntimeError` never escapes;
- that for files of equal length holding only usable records (non-empty and reported complete by the evaluator's check), `allow_incomplete` makes no difference.

`ArenaEval._get_judge_score` works on the regular expression `\[\[([AB<>=]+)\]\]`. It is modelled in module `Verdict`: `FindAll` is the left-to-right, non-overlapping scan of `re.findall`, and the lemmas about `GetJudgeScore` say which texts yield a verdict.

## Model

| member | source | states |
|---|---|---|
| Values.Column | nemo_skills/evaluation/metrics.py:75 | `[elem[key] for elem in predictions]` succeeds exactly when every record holds the key and then lists each record's value in order; otherwise it raises KeyError |
| Values.NestedColumn | nemo_skills/evaluation/metrics.py:180-181 | `[elem[outer][inner] for elem in predictions]` succeeds exactly when every record holds the nested key and lists the nested values; a KeyError means some record really lacks a key, and otherwise the failure is a TypeError |
| Values.AnyTruthyColumn | nemo_skills/evaluation/metrics.py:75 | over records that all hold the key, `any` of the column holds exactly when some record's value is truthy |
| Values.AllNullColumn | nemo_skills/evaluation/metrics.py:76 | over records that all hold the key, `all(... is None)` holds exactly when every record's value is null |
| Values.AnyTruthyNested | nemo_skills/evaluation/metrics.py:180-181 | over records that all hold the nested key, `any` holds exactly when some record's nested value is truthy |
| Values.AddFlag | nemo_skills/evaluation/metrics.py:91 | adding a JSON value to an int counter succeeds exactly when the value is a boolean, and then adds 1 for true and 0 for false; anything else raises TypeError |
| Verdict.RunLength | nemo_skills/evaluation/metrics.py:237 | the greedy `[AB<>=]+` takes the longest prefix made of verdict characters: all those before it are verdict characters, and the next one is not |
| Verdict.FindAll | nemo_skills/evaluation/metrics.py:238 | every group `findall` returns is a non-empty string of verdict characters |
| Verdict.GetJudgeScore | nemo_skills/evaluation/metrics.py:235-245 | a score is returned exactly when there is at least one match and all matches are equal, and it is then the first match |
| Verdict.DistinctCount | nemo_skills/evaluation/metrics.py:240-245 | the set of matches is empty exactly when there are no matches, and has one element exactly when all matches equal the first |
| Verdict.FindAllSkip | nemo_skills/evaluation/metrics.py:238 | text without an opening bracket adds no match to the scan of what follows it |
| Verdict.FindAllToken | nemo_skills/evaluation/metrics.py:237-238 | a bracketed verdict at the start is matched whole, and the scan resumes right after its closing brackets |
| Verdict.SingleVerdict | nemo_skills/evaluation/metrics.py:235-243 | a judgement holding one bracketed verdict among bracket-free text yields that verdict |
| Verdict.RepeatedVerdict | nemo_skills/evaluation/metrics.py:235-243 | the same verdict written twice still yields it |
| Verdict.ConflictingVerdicts | nemo_skills/evaluation/metrics.py:244-245 | two different verdicts in one judgement yield no score |
| Verdict.NoVerdict | nemo_skills/evaluation/metrics.py:240-241 | a judgement without an opening bracket yields no score |
| MathEvaluation.FillUpMissing | nemo_skills/evaluation/metrics.py:57-61 | the stand-in record is non-empty and is not reported incomplete |
| MathEvaluation.FilledEntryCounts | nemo_skills/evaluation/metrics.py:57-92 | in every supported mode, an entry made of one stand-in record is counted as wrong and unanswered |
| MathEvaluation.Votes | nemo_skills/evaluation/metrics.py:80-84 | the majority-mode comprehension succeeds exactly when every record has `predicted_answer` and every answered one has `is_correct`; it keeps only answered pairs, and it is empty exactly when no record is answered |
| MathEvaluation.VotesAreAnsweredPairs | nemo_skills/evaluation/metrics.py:80-84 | the votes list the (answer, is_correct) pairs of the answered generations in order and with repeats: vote `j` comes from the `j`-th answered generation, and every answered generation gives one vote |
| MathEvaluation.MostCommonIndex | nemo_skills/evaluation/metrics.py:88 | `Counter(...).most_common(1)[0][0]` is a vote no other vote outnumbers, and no earlier position holds one as frequent |
| MathEvaluation.MajorityIndexUnique | nemo_skills/evaluation/metrics.py:88 | the majority position is unique, so the majority vote depends only on the votes |
| MathEvaluation.Step | nemo_skills/evaluation/metrics.py:63-94 | every call counts the entry; each other counter grows by at most one and stays within `total`; an unsupported mode raises ValueError after counting |
| MathEvaluation.BestStep | nemo_skills/evaluation/metrics.py:74-77 | "best" leaves `total` alone and raises each other counter by at most one |
| MathEvaluation.MajorityStep | nemo_skills/evaluation/metrics.py:78-89 | "majority" raises at most one counter, and each by at most one |
| MathEvaluation.FirstStep | nemo_skills/evaluation/metrics.py:90-92 | "first" raises each counter by at most one |
| MathEvaluation.BestMode | nemo_skills/evaluation/metrics.py:74-77 | over complete records, "best" returns normally; the entry is correct exactly when some generation is correct, and unanswered exactly when every answer is null |
| MathEvaluation.MajorityNoAnswer | nemo_skills/evaluation/metrics.py:80-86 | "majority" with no answered generation counts the entry as unanswered and not correct |
| MathEvaluation.MajorityVote | nemo_skills/evaluation/metrics.py:80-89 | "majority" with answered generations adds the `is_correct` flag of the most frequent pair, ties going to the pair seen first, and leaves the no-answer counter alone |
| MathEvaluation.FirstMode | nemo_skills/evaluation/metrics.py:90-92 | "first" adds the first generation's correctness flag and its no-answer flag |
| MathEvaluation.FirstModeEmpty | nemo_skills/evaluation/metrics.py:90-91 | "first" over no generations raises IndexError after counting the entry |
| MathEvaluation.NoRuntimeError | nemo_skills/evaluation/metrics.py:63-94 | `update` never raises RuntimeError |
| MathEvaluation.CompleteNoKeyError | nemo_skills/evaluation/metrics.py:60-94 | records that `is_incomplete` accepts never make `update` raise KeyError, in any mode |
| MathEvaluation.BestFailsIffIncomplete | nemo_skills/evaluation/metrics.py:60-77 | "best" raises KeyError exactly when some generation is one that `is_incomplete` reports, and otherwise returns normally |
| MathEvaluation.MathEval.constructor | nemo_skills/evaluation/metrics.py:54-55 | a new evaluator starts with all counters at zero |
| MathEvaluation.MathEval.Reset | nemo_skills/evaluation/metrics.py:104-107 | `reset` sets every counter to zero |
| MathEvaluation.MathEval.Update | nemo_skills/evaluation/metrics.py:63-94 | the new counters and the status are those of Step on the old counters |
| CodeEvaluation.FillUpMissing | nemo_skills/evaluation/metrics.py:114-118 | the stand-in record is non-empty and is not reported incomplete |
| CodeEvaluation.FilledEntryCounts | nemo_skills/evaluation/metrics.py:114-136 | in every supported mode, an entry made of one stand-in record fails both test suites |
| CodeEvaluation.Step | nemo_skills/evaluation/metrics.py:120-138 | every call counts the entry; each pass counter grows by at most one and stays within `total`; an unsupported mode raises ValueError after counting |
| CodeEvaluation.BestStep | nemo_skills/evaluation/metrics.py:131-133 | "best" raises each pass counter by at most one |
| CodeEvaluation.FirstStep | nemo_skills/evaluation/metrics.py:134-136 | "first" raises each pass counter by at most one |
| CodeEvaluation.BestMode | nemo_skills/evaluation/metrics.py:131-133 | over complete records, "best" returns normally, and each counter rises exactly when some generation passes that suite |
| CodeEvaluation.FirstMode | nemo_skills/evaluation/metrics.py:134-136 | "first" adds the first generation's two pass flags |
| CodeEvaluation.NoRuntimeError | nemo_skills/evaluation/metrics.py:120-138 | `update` never raises RuntimeError |
| CodeEvaluation.CompleteNoKeyError | nemo_skills/evaluation/metrics.py:117-138 | records that `is_incomplete` accepts never make `update` raise KeyError |
| CodeEvaluation.BestFailsIffIncomplete | nemo_skills/evaluation/metrics.py:117-133 | "best" raises KeyError exactly when some generation is one that `is_incomplete` reports, and otherwise returns normally |
| CodeEvaluation.CodeEval.constructor | nemo_skills/evaluation/metrics.py:111-112 | a new evaluator starts with all counters at zero |
| CodeEvaluation.CodeEval.Reset | nemo_skills/evaluation/metrics.py:147-150 | `reset` sets every counter to zero |
| CodeEvaluation.CodeEval.Update | nemo_skills/evaluation/metrics.py:120-138 | the new counters and the status are those of Step on the old counters |
| IFEvaluation.IsIncompleteAsWritten | nemo_skills/evaluation/metrics.py:160-166 | the check as written reports a record without `loose_eval` or without `strict_eval` complete; with both present it reports incomplete exactly when `loose_eval` lacks `follow_all_instructions`, or holds it while `strict_eval` lacks it; it fails only with TypeError |
| IFEvaluation.MissesFollowAll | nemo_skills/evaluation/metrics.py:164-166 | the short-circuit `or` of the two `not in` tests is true exactly when `loose_eval` lacks the key or `strict_eval` lacks it after `loose_eval` has it, false exactly when both hold it, and otherwise a TypeError |
| IFEvaluation.IsIncomplete | nemo_skills/evaluation/metrics.py:160-166 | the corrected check reports a record complete exactly when it holds both evaluations and both hold `follow_all_instructions`; it can fail only with a TypeError, from `in` on a value that is not iterable |
| IFEvaluation.FillUpMissing | nemo_skills/evaluation/metrics.py:157-158 | the stand-in record is non-empty and complete under both checks |
| IFEvaluation.FilledEntryCounts | nemo_skills/evaluation/metrics.py:157-184 | in every supported mode, an entry made of one stand-in record follows the instructions under neither evaluation |
| IFEvaluation.Step | nemo_skills/evaluation/metrics.py:168-186 | every call counts the entry; each accuracy counter grows by at most one and stays within `total`; an unsupported mode raises ValueError after counting |
| IFEvaluation.BestStep | nemo_skills/evaluation/metrics.py:179-181 | "best" raises each accuracy counter by at most one |
| IFEvaluation.FirstStep | nemo_skills/evaluation/metrics.py:182-184 | "first" raises each accuracy counter by at most one |
| IFEvaluation.BestMode | nemo_skills/evaluation/metrics.py:179-181 | over records holding both nested flags, "best" returns normally, and each counter rises exactly when some generation follows all instructions under that evaluation |
| IFEvaluation.FirstMode | nemo_skills/evaluation/metrics.py:182-184 | "first" adds the first generation's two flags |
| IFEvaluation.NoRuntimeError | nemo_skills/evaluation/metrics.py:168-186 | `update` never raises RuntimeError |
| IFEvaluation.CompleteNoKeyError | nemo_skills/evaluation/metrics.py:160-186 | records that the corrected check reports complete never make `update` raise KeyError |
| IFEvaluation.AsWrittenLetsKeyErrorThrough | nemo_skills/evaluation/metrics.py:160-184 | a record with only `strict_eval` passes the check as written, but `update` raises KeyError on it in both modes; the corrected check reports it incomplete |
| IFEvaluation.IFEval.constructor | nemo_skills/evaluation/metrics.py:154-155 | a new evaluator starts with all counters at zero |
| IFEvaluation.IFEval.Reset | nemo_skills/evaluation/metrics.py:195-198 | `reset` sets every counter to zero |
| IFEvaluation.IFEval.Update | nemo_skills/evaluation/metrics.py:168-186 | the new counters and the status are those of Step on the old counters |
| ArenaEvaluation.Reversed | nemo_skills/evaluation/metrics.py:281 | `possible_scores[::-1]` holds the same scores in the opposite order |
| ArenaEvaluation.FillUpMissing | nemo_skills/evaluation/metrics.py:247-251 | the stand-in record is complete and scorable; both its judgements yield no verdict, and its generation has length zero |
| ArenaEvaluation.FilledEntryHasNoVerdict | nemo_skills/evaluation/metrics.py:247-295 | in every supported mode, an entry made of one stand-in record is recorded as `[None, None]` and adds no length |
| ArenaEvaluation.JudgeColumn | nemo_skills/evaluation/metrics.py:266 | the judge-score comprehension succeeds exactly when every record holds the judgement as a string, and then lists each record's score; a KeyError means some record lacks the key, and otherwise the failure is a TypeError |
| ArenaEvaluation.JudgeOf | nemo_skills/evaluation/metrics.py:293-294 | `self._get_judge_score(predictions[0][key])` succeeds exactly when the record holds the judgement as a string, and then gives its score; a missing key raises KeyError and any other value TypeError; it fails or succeeds as the one-record judge-score comprehension does |
| ArenaEvaluation.FirstPresent | nemo_skills/evaluation/metrics.py:269-271 | the for loop stops at the first score in the order that some generation received, or finds none |
| ArenaEvaluation.IndexOf | nemo_skills/evaluation/metrics.py:273 | `judge_scores.index(score)` is the first position holding the score |
| ArenaEvaluation.WithVerdict | nemo_skills/evaluation/metrics.py:272 | `self.scores[-1].append(v)` extends only the last entry, by `v` |
| ArenaEvaluation.PickVerdict | nemo_skills/evaluation/metrics.py:269-277 | one for/else search appends to the last entry exactly one verdict, the most preferred one in `order` that some generation received (or None), keeps the verdicts already there, leaves the earlier entries and `total` alone, never decreases `lengths`, and on normal return adds the length of the first generation with that verdict |
| ArenaEvaluation.Step | nemo_skills/evaluation/metrics.py:253-297 | every call counts the entry and appends one entry of at most two verdicts, with exactly two when it returns normally; earlier entries are kept and `lengths` never decreases; an unsupported mode raises ValueError after opening an empty entry |
| ArenaEvaluation.StepKeepsWellFormed | nemo_skills/evaluation/metrics.py:263-297 | `update` keeps one entry per counted call, each of at most two verdicts, and a non-negative length sum |
| ArenaEvaluation.BestStep | nemo_skills/evaluation/metrics.py:265-289 | "best" fills the opened entry with at most two verdicts, with exactly two when it returns normally |
| ArenaEvaluation.FirstStep | nemo_skills/evaluation/metrics.py:290-295 | "first" fills the opened entry with at most two verdicts, with exactly two when it returns normally |
| ArenaEvaluation.PickVerdictBest | nemo_skills/evaluation/metrics.py:269-277 | over scorable records, a search returns normally; it appends the most preferred verdict any generation received, or None, and adds the length of the first generation with that verdict |
| ArenaEvaluation.BestMode | nemo_skills/evaluation/metrics.py:265-289 | over scorable records, "best" returns normally and records the best verdict by the preference order and the best swapped verdict by the reversed order, adding the lengths of the generations they came from |
| ArenaEvaluation.BestStepValues | nemo_skills/evaluation/metrics.py:265-289 | the state after "best" is the old one with the entry `[v1, v2]` and the two added lengths, where `v1` and `v2` are the two searches' best verdicts |
| ArenaEvaluation.FirstMode | nemo_skills/evaluation/metrics.py:290-295 | "first" records the first generation's two scores and adds its length |
| ArenaEvaluation.NoRuntimeError | nemo_skills/evaluation/metrics.py:253-297 | `update` never raises RuntimeError |
| ArenaEvaluation.CompleteNoKeyError | nemo_skills/evaluation/metrics.py:250-297 | records that `is_incomplete` accepts never make `update` raise KeyError |
| ArenaEvaluation.FirstFailsOnIncomplete | nemo_skills/evaluation/metrics.py:250-295 | "first" raises when the first generation is one that `is_incomplete` reports; without `generation` it raises KeyError before recording any verdict |
| ArenaEvaluation.ArenaEval.constructor | nemo_skills/evaluation/metrics.py:202-203 | a new evaluator starts with no scores, no length and no entries |
| ArenaEvaluation.ArenaEval.Reset | nemo_skills/evaluation/metrics.py:316-319 | `reset` empties the scores and zeroes `lengths` and `total` |
| ArenaEvaluation.ArenaEval.Update | nemo_skills/evaluation/metrics.py:253-297 | the new object state and the status are those of Step on the old state |
| ArenaEvaluation.ArenaEval.AppendBest | nemo_skills/evaluation/metrics.py:269-277 | the for/else loop leaves the state and status that PickVerdict specifies |
| Predictions.IsIncomplete | nemo_skills/evaluation/metrics.py:336 | `evaluator.is_incomplete` runs the evaluator's own check, for IFEval the one its flag names; only IFEval's check can raise, and only TypeError |
| Predictions.FillUpMissing | nemo_skills/evaluation/metrics.py:328 | every evaluator's stand-in record is usable: non-empty and reported complete |
| Predictions.ReadLine | nemo_skills/evaluation/metrics.py:325-341 | with the evaluator's own check, a missing, empty or incomplete line becomes the stand-in record when allowed and raises RuntimeError otherwise; a usable line is kept unchanged; anything handed on is usable |
| Predictions.ReadOne | nemo_skills/evaluation/metrics.py:325-341 | the loop body with its early `continue`s computes ReadLine |
| Predictions.ReadAll | nemo_skills/evaluation/metrics.py:322-343 | the read succeeds exactly when every line reads; it then gives one record per line, in order; otherwise it raises the exception of the first line that fails |
| Predictions.ReadPredictions | nemo_skills/evaluation/metrics.py:322-343 | the source's loop computes ReadAll |
| Predictions.ReadAllFails | nemo_skills/evaluation/metrics.py:326-340 | once a prefix of the lines raises, the whole read raises the same exception |
| Predictions.ReadAllUsable | nemo_skills/evaluation/metrics.py:322-343 | every record handed on is usable; those from usable lines are the lines themselves and the rest are stand-ins |
| Predictions.ReadAllIdempotent | nemo_skills/evaluation/metrics.py:322-343 | reading the handed-on records again, even without `allow_incomplete`, returns them unchanged |
| Predictions.ReadAllNoKeyError | nemo_skills/evaluation/metrics.py:322-343 | reading raises only RuntimeError or TypeError, never KeyError |
| Predictions.AllowedNeverMissing | nemo_skills/evaluation/metrics.py:325-340 | with `allow_incomplete`, reading never raises RuntimeError |
| Predictions.StrictRefusesMissing | nemo_skills/evaluation/metrics.py:325-340 | without it, a missing line raises RuntimeError unless an earlier line raises first |
| Predictions.UsableLinesReadUnchanged | nemo_skills/evaluation/metrics.py:322-343 | lines that are all present and usable are handed on unchanged, whether or not incomplete data is allowed |
| Metrics.Initial | nemo_skills/evaluation/metrics.py:353 | `evaluator.reset()` leaves an evaluator of the same kind with no entries counted |
| Metrics.Step | nemo_skills/evaluation/metrics.py:361 | `evaluator.update` keeps the evaluator's kind and counts one entry, whether or not it raises |
| Metrics.ResetEvaluator | nemo_skills/evaluation/metrics.py:353 | resetting any evaluator object leaves the state Initial |
| Metrics.UpdateEvaluator | nemo_skills/evaluation/metrics.py:361 | updating any evaluator object leaves the state and status Step gives |
| Metrics.Longest | nemo_skills/evaluation/metrics.py:357 | `zip_longest` runs as long as the longest file: no file is longer, and with any files at all one file is that long |
| Metrics.Row | nemo_skills/evaluation/metrics.py:357 | each tuple holds one line per file |
| Metrics.RowLines | nemo_skills/evaluation/metrics.py:357 | a tuple holds each file's line at that position, or None once the file has ended |
| Metrics.RowHasLine | nemo_skills/evaluation/metrics.py:357 | a position lies below the longest length exactly when some file still has a line there |
| Metrics.UpdateCount | nemo_skills/evaluation/metrics.py:357-359 | the loop reaches at most the number of rows, and at most `max_samples` when that is not negative; it is one of the two |
| Metrics.Advance | nemo_skills/evaluation/metrics.py:360-361 | one iteration keeps the evaluator's kind |
| Metrics.AdvanceCases | nemo_skills/evaluation/metrics.py:360-361 | an iteration raises the read's exception without touching the evaluator, or else runs `update` on the records read |
| Metrics.AdvanceCounts | nemo_skills/evaluation/metrics.py:357-361 | each iteration counts at most one entry, nothing happens after an exception, and an iteration that returns normally counts exactly one |
| Metrics.Run | nemo_skills/evaluation/metrics.py:357-361 | iterating keeps the evaluator's kind |
| Metrics.ComputeMetrics | nemo_skills/evaluation/metrics.py:346-364 | the loop of `compute_metrics`, from `reset` to the last `update`, leaves the state and status that Compute gives |
| Metrics.ProcessEntry | nemo_skills/evaluation/metrics.py:360-361 | one loop body takes the state after `idx` iterations to the state after `idx + 1` |
| Metrics.RunNext | nemo_skills/evaluation/metrics.py:360-361 | after iterations that returned normally, the next one raises the read's exception or runs `update` |
| Metrics.RunStops | nemo_skills/evaluation/metrics.py:357-361 | once an exception escapes, later positions change nothing |
| Metrics.RunCounts | nemo_skills/evaluation/metrics.py:357-361 | `n` iterations call `update` exactly `n` times when they complete, and at most `n` times when one raises |
| Metrics.Compute | nemo_skills/evaluation/metrics.py:346-361 | `compute_metrics` keeps the evaluator's kind; it counts at most `min(rows, max_samples)` entries, or every row for a negative `max_samples`, and exactly that many when it returns normally |
| Metrics.StepNoKeyError | nemo_skills/evaluation/metrics.py:336-361 | except for IFEval with the check as written, no evaluator's `update` raises KeyError on records that `read_predictions` hands on |
| Metrics.StepNoRuntimeError | nemo_skills/evaluation/metrics.py:361 | no evaluator's `update` raises RuntimeError |
| Metrics.AdvanceNoKeyError | nemo_skills/evaluation/metrics.py:360-361 | except for IFEval with the check as written, an iteration never introduces a KeyError |
| Metrics.RunNoKeyError | nemo_skills/evaluation/metrics.py:357-361 | except for IFEval with the check as written, no number of iterations raises KeyError |
| Metrics.NeverKeyError | nemo_skills/evaluation/metrics.py:346-361 | whatever the files hold, `compute_metrics` never raises KeyError, for every evaluator but IFEval with the check as written; for IFEval this needs the corrected check |
| Metrics.AsWrittenIFRaisesKeyError | nemo_skills/evaluation/metrics.py:336-361 | with IFEval's check as written, one file whose one line holds only `strict_eval` makes `compute_metrics` count the entry and raise KeyError, whether or not incomplete data is allowed; with the corrected check it raises RuntimeError without `allow_incomplete`, and with it counts a filled-up entry and returns normally |
| Metrics.AdvanceNoRuntimeError | nemo_skills/evaluation/metrics.py:360-361 | with `allow_incomplete`, an iteration never introduces a RuntimeError |
| Metrics.RunAllowedNoRuntimeError | nemo_skills/evaluation/metrics.py:357-361 | with `allow_incomplete`, no number of iterations raises RuntimeError |
| Metrics.AllowedNeverRaisesMissing | nemo_skills/evaluation/metrics.py:346-361 | with `allow_incomplete`, `compute_metrics` never raises RuntimeError |
| Metrics.ReadAllAllowIrrelevant | nemo_skills/evaluation/metrics.py:322-343 | lines that are all present and usable read the same whether or not incomplete data is allowed |
| Metrics.RowUsable | nemo_skills/evaluation/metrics.py:357-360 | below the common length of equally long files of usable records, an entry reads the same either way |
| Metrics.AdvanceAllowIrrelevant | nemo_skills/evaluation/metrics.py:360-361 | an entry that reads the same either way gives the same iteration either way |
| Metrics.RowsReadAlike | nemo_skills/evaluation/metrics.py:357-360 | every entry of equally long files of usable records reads the same either way |
| Metrics.ReadAlikeBelow | nemo_skills/evaluation/metrics.py:357-360 | entries that each read alike make every prefix read alike |
| Metrics.RunAllowIrrelevant | nemo_skills/evaluation/metrics.py:357-361 | iterations over entries that read alike run alike |
| Metrics.LastAllowIrrelevant | nemo_skills/evaluation/metrics.py:360-361 | one more entry that reads alike keeps the runs alike |
| Metrics.AllowIrrelevantWhenComplete | nemo_skills/evaluation/metrics.py:346-361 | for equally long files of usable records, `allow_incomplete` does not change what `compute_metrics` computes |

## Left out

- `get_metrics` of all four evaluators: it divides with floating point, and `ArenaEval.get_metrics` calls `get_aggregate_score` from `nemo_skills/evaluation/arena_utils.py`, which is not part of this model. The model stops at the state `get_metrics` would read.
- `ArenaEval.setup` reads and rewrites files and fetches batch results over the network; `compute_metrics` is modelled as if it changed nothing. `BaseEval.setup` does nothing (nemo_skills/evaluation/metrics.py:49-50), so for the other three evaluators nothing is lost.
- File handling in `compute_metrics`: `unroll_files`, opening and closing the files, and reading their lines. The files are given as sequences of parsed records.
- `json.loads`: parse errors, and documents that are not objects, are not modelled; every present line is a parsed object. A falsy raw line (the `None` that `zip_longest` pads with) is `None`; a line holding `{}` is the empty record.
- JSON numbers and arrays are not JSON values here. So an `is_correct` flag given as a number, which Python would add to a counter because `True == 1`, is not modelled, and neither is `in` on an array in `IFEval.is_incomplete`.
- Exception messages are not modelled. Exceptions are the bare names ValueError, RuntimeError, KeyError, TypeError and IndexError.
- `BaseEval`'s abstract interface: the four classes are wrapped in the datatype `Metrics.Evaluator` instead of a common base class.
- Logging (`LOG`) has no effect on the state and is not modelled.
- Verdict.FindAll: its own postcondition states only that each group is a non-empty string of verdict characters. That it is exactly the left-to-right scan of the regular expression is said by its body and the lemmas FindAllToken and FindAllSkip, not by one contract. `.strip("\n")` and the filter dropping empty matches are not repeated, because both leave a verdict token unchanged.
- ArenaEvaluation.BestMode: the verdicts are stated only when every record is scorable, that is complete, with both judgements strings and a generation whose length can be taken. The source takes the length of only the generation each search picks (nemo_skills/evaluation/metrics.py:273-274 and 285-286). So "best" also returns normally when a generation that is not picked cannot be measured. For that case PickVerdict still states the verdict each search appends, but BestMode states the whole entry only for scorable records.
- ArenaEvaluation.BestStepValues: the same restriction to scorable records, for the same reason.
- ArenaEvaluation.PickVerdictBest: the same restriction to scorable records, for one search.

## Findings

| source | as written | input that shows it | evidently intended | confidence | as-written member | corrected member |
|---|---|---|---|---|---|---|
| nemo_skills/evaluation/metrics.py:160-163 | `IFEval.is_incomplete` returns False when `loose_eval` or `strict_eval` is missing, so such a record passes `read_predictions` and `update` then raises KeyError | the record `{"strict_eval": {"follow_all_instructions": true}}`, in mode "first" or "best" | such a record is reported incomplete, so that it is filled up with `allow_incomplete` and refused without it | not executed | IFEvaluation.AsWrittenLetsKeyErrorThrough | IFEvaluation.IsIncomplete |
| nemo_skills/evaluation/metrics.py:336-361 | `read_predictions` hands on every record that `is_incomplete` reports complete, so with IFEval's check as written a KeyError from `update` escapes `compute_metrics` | one file whose one line is `{"strict_eval": {"follow_all_instructions": true}}`, `max_samples` -1, mode "first" or "best" | `compute_metrics` refuses or fills up such a record, so `update` never raises KeyError | not executed | Metrics.AsWrittenIFRaisesKeyError | Metrics.NeverKeyError |

One more observation, which is not claimed as a bug: in "best" mode `ArenaEval.update` adds the lengths of up to two generations to `lengths`, one per search, and none for a search whose verdict is None; in "first" mode it always adds one. Both modes count one entry toward `total`, so `avg_response_length` differs in scale between the two modes (`ArenaEvaluation.BestMode`, `ArenaEvaluation.FirstMode`).
