/** `ArenaEval`: records, per entry, the judge's verdict on the generation
    against the baseline and on the swapped pair, and sums the lengths of
    the generations the verdicts were taken from. */
module ArenaEvaluation {
  import opened Values
  import opened Verdict

  /** A verdict token, or None where the judge gave no usable one. */
  type Score = Option<string>

  datatype Counters = Counters(scores: seq<seq<Score>>, lengths: int, total: int)

  const Initial := Counters([], 0, 0)

  /** Gen-versus-base verdicts, best for the generation first. */
  const Preference: seq<string> := ["A>>B", "A>B", "A=B", "B>A", "B>>A"]

  const GenBase := "judgement-gen-base"
  const BaseGen := "judgement-base-gen"

  /** One entry per update, each holding at most the two verdicts. */
  predicate WellFormed(c: Counters) {
    |c.scores| == c.total && c.lengths >= 0 &&
    forall k :: 0 <= k < |c.scores| ==> |c.scores[k]| <= 2
  }

  function Reversed(s: seq<string>): (r: seq<string>)
    ensures |r| == |s| && forall i :: 0 <= i < |s| ==> r[i] == s[|s| - 1 - i]
  {
    if s == [] then [] else Reversed(s[1..]) + [s[0]]
  }

  predicate IsIncomplete(elem: Record) {
    GenBase !in elem || BaseGen !in elem || "generation" !in elem
  }

  /** The record that stands in for a missing prediction: complete, with
      empty judgements that give no verdict and an empty generation. */
  function FillUpMissing(): (r: Record)
    ensures r != map[] && Scorable(r)
    ensures GetJudgeScore(r[GenBase].s) == None && GetJudgeScore(r[BaseGen].s) == None
    ensures Length(r["generation"]) == Ok(0)
  {
    var r := map[GenBase := JStr(""), BaseGen := JStr(""), "generation" := JStr("")];
    assert GetJudgeScore("") == None;
    assert "generation" in r;
    r
  }

  /** A filled-up entry is recorded with neither verdict and adds no length. */
  lemma FilledEntryHasNoVerdict(c: Counters, mode: string)
    requires mode in {"best", "first"}
    ensures Step(c, [FillUpMissing()], mode) == (Counters(c.scores + [[None, None]], c.lengths, c.total + 1), Done)
  {
    if mode == "best" {
      FilledBestHasNoVerdict(c);
    } else {
      FirstMode(c, [FillUpMissing()]);
    }
  }

  lemma FilledBestHasNoVerdict(c: Counters)
    ensures Step(c, [FillUpMissing()], "best") == (Counters(c.scores + [[None, None]], c.lengths, c.total + 1), Done)
  {
    var r := FillUpMissing();
    JudgeColumnIs([r], GenBase, [None]);
    JudgeColumnIs([r], BaseGen, [None]);
    var v1, n1, v2, n2 := BestStepValues(c, [r], [None], [None]);
    assert v1 == None && v2 == None;
    assert n1 == 0 && n2 == 0;
    var st := Step(c, [r], "best");
    assert st.1 == Done;
    assert st.0 == Counters(c.scores + [[None, None]], c.lengths, c.total + 1);
  }

  /** `[self._get_judge_score(elem[key]) for elem in preds]`; the regular
      expression raises TypeError on anything but a string. */
  function JudgeColumn(preds: seq<Record>, key: string): (r: Result<seq<Score>>)
    ensures r.Ok? <==> forall i :: 0 <= i < |preds| ==> key in preds[i] && preds[i][key].JStr?
    ensures r.Ok? ==> |r.value| == |preds| && forall i :: 0 <= i < |preds| ==> r.value[i] == GetJudgeScore(preds[i][key].s)
    ensures r == Err(KeyError) ==> exists i :: 0 <= i < |preds| && key !in preds[i]
    ensures r.Err? ==> r.error == KeyError || r.error == TypeError
  {
    if |preds| == 0 then Ok([])
    else if key !in preds[0] then Err(KeyError)
    else if !preds[0][key].JStr? then Err(TypeError)
    else
      match JudgeColumn(preds[1..], key)
      case Err(e) =>
        assert forall i :: 1 <= i < |preds| ==> preds[1..][i - 1] == preds[i];
        Err(e)
      case Ok(rest) => Ok([GetJudgeScore(preds[0][key].s)] + rest)
  }

  /** `self._get_judge_score(elem[key])`. */
  function JudgeOf(elem: Record, key: string): (r: Result<Score>)
    ensures r.Ok? <==> key in elem && elem[key].JStr?
    ensures r.Ok? ==> r.value == GetJudgeScore(elem[key].s)
    ensures r.Err? ==> (r.error == KeyError <==> key !in elem) && (r.error == KeyError || r.error == TypeError)
    ensures JudgeColumn([elem], key) == if r.Ok? then Ok([r.value]) else Err(r.error)
  {
    if key !in elem then Err(KeyError)
    else if !elem[key].JStr? then Err(TypeError)
    else
      var v := GetJudgeScore(elem[key].s);
      assert JudgeColumn([elem], key).value == [v];
      Ok(v)
  }

  /** The position in `order` of the first verdict some generation received. */
  function FirstPresent(js: seq<Score>, order: seq<string>): (o: Option<nat>)
    ensures o.Some? ==> (o.value < |order| && Some(order[o.value]) in js &&
      forall p :: 0 <= p < o.value ==> Some(order[p]) !in js)
    ensures o.None? ==> forall p :: 0 <= p < |order| ==> Some(order[p]) !in js
  {
    if order == [] then None
    else if Some(order[0]) in js then Some(0)
    else
      match FirstPresent(js, order[1..])
      case None => None
      case Some(o) => Some(o + 1)
  }

  /** `js.index(x)`. */
  function IndexOf(js: seq<Score>, x: Score): (k: nat)
    requires x in js
    ensures k < |js| && js[k] == x && forall j :: 0 <= j < k ==> js[j] != x
  {
    if js[0] == x then 0 else 1 + IndexOf(js[1..], x)
  }

  /** Appends `v` to the entry being recorded. */
  function WithVerdict(c: Counters, v: Score): (r: Counters)
    requires |c.scores| > 0
    ensures r.total == c.total && r.lengths == c.lengths && |r.scores| == |c.scores|
    ensures r.scores[..|c.scores| - 1] == c.scores[..|c.scores| - 1]
    ensures r.scores[|c.scores| - 1] == c.scores[|c.scores| - 1] + [v]
  {
    c.(scores := c.scores[..|c.scores| - 1] + [c.scores[|c.scores| - 1] + [v]])
  }

  /** One for/else search of `update`: the most preferred verdict in `order`
      that some generation received, or None, is appended to the entry being
      recorded, and the length of the first generation that received it is
      added to `lengths`. */
  function PickVerdict(c: Counters, preds: seq<Record>, js: seq<Score>, order: seq<string>): (r: (Counters, Status))
    requires |js| == |preds| && |c.scores| > 0
    ensures r.0.total == c.total && |r.0.scores| == |c.scores| && c.lengths <= r.0.lengths
    ensures r.0.scores[..|c.scores| - 1] == c.scores[..|c.scores| - 1]
    ensures |r.0.scores[|c.scores| - 1]| == |c.scores[|c.scores| - 1]| + 1
    ensures exists v :: (IsBestVerdict(js, order, v) && r.0.scores == WithVerdict(c, v).scores &&
      (r.1 == Done ==> AddedLength(preds, js, v, r.0.lengths - c.lengths)) &&
      (r.1.Raised? ==> v.Some? && r.0 == WithVerdict(c, v)))
  {
    match FirstPresent(js, order)
    case None =>
      assert IsBestVerdict(js, order, None) && AddedLength(preds, js, None, 0);
      (WithVerdict(c, None), Done)
    case Some(o) =>
      var v := Some(order[o]);
      assert IsBestVerdict(js, order, v);
      var c2 := WithVerdict(c, v);
      var k := IndexOf(js, v);
      if "generation" !in preds[k] then (c2, Raised(KeyError))
      else
        match Length(preds[k]["generation"])
        case Err(e) => (c2, Raised(e))
        case Ok(n) =>
          assert AddedLength(preds, js, v, n);
          (c2.(lengths := c2.lengths + n), Done)
  }

  /** `ArenaEval.update(predictions, aggregation_mode)` as a function of the
      state: the new state, and whether it raised. Every call counts the
      entry and appends exactly one entry to `scores`, holding both verdicts
      when the call returns normally. */
  function Step(c: Counters, preds: seq<Record>, mode: string): (r: (Counters, Status))
    ensures r.0.total == c.total + 1
    ensures |r.0.scores| == |c.scores| + 1 && r.0.scores[..|c.scores|] == c.scores
    ensures |r.0.scores[|c.scores|]| <= 2
    ensures r.1 == Done ==> |r.0.scores[|c.scores|]| == 2
    ensures c.lengths <= r.0.lengths
    ensures mode !in {"best", "first"} ==> r == (c.(total := c.total + 1, scores := c.scores + [[]]), Raised(ValueError))
  {
    var c1 := c.(total := c.total + 1, scores := c.scores + [[]]);
    assert c1.scores[..|c.scores|] == c.scores;
    if mode == "best" then BestStep(c1, preds)
    else if mode == "first" then FirstStep(c1, preds)
    else (c1, Raised(ValueError))
  }

  /** Every update keeps one entry per counted call, each of at most two
      verdicts, and a non-negative length sum. */
  lemma StepKeepsWellFormed(c: Counters, preds: seq<Record>, mode: string)
    requires WellFormed(c)
    ensures WellFormed(Step(c, preds, mode).0)
  {
    var r := Step(c, preds, mode).0;
    ShortEntries(c.scores, r.scores);
  }

  lemma ShortEntries(s: seq<seq<Score>>, t: seq<seq<Score>>)
    requires forall k :: 0 <= k < |s| ==> |s[k]| <= 2
    requires |t| == |s| + 1 && t[..|s|] == s && |t[|s|]| <= 2
    ensures forall k :: 0 <= k < |t| ==> |t[k]| <= 2
  {
    forall k | 0 <= k < |t|
      ensures |t[k]| <= 2
    {
      if k < |s| {
        assert t[k] == t[..|s|][k];
      }
    }
  }

  /** The "best" branch, from the state with the entry already opened. */
  function BestStep(c1: Counters, preds: seq<Record>): (r: (Counters, Status))
    requires |c1.scores| > 0 && c1.scores[|c1.scores| - 1] == []
    ensures r.0.total == c1.total && |r.0.scores| == |c1.scores|
    ensures r.0.scores[..|c1.scores| - 1] == c1.scores[..|c1.scores| - 1]
    ensures |r.0.scores[|c1.scores| - 1]| <= 2
    ensures r.1 == Done ==> |r.0.scores[|c1.scores| - 1]| == 2
    ensures c1.lengths <= r.0.lengths
  {
    match JudgeColumn(preds, GenBase)
    case Err(e) => (c1, Raised(e))
    case Ok(js) =>
      var (c2, st) := PickVerdict(c1, preds, js, Preference);
      if st.Raised? then (c2, st)
      else
        match JudgeColumn(preds, BaseGen)
        case Err(e) => (c2, Raised(e))
        case Ok(js2) => PickVerdict(c2, preds, js2, Reversed(Preference))
  }

  /** The "first" branch. */
  function FirstStep(c1: Counters, preds: seq<Record>): (r: (Counters, Status))
    requires |c1.scores| > 0 && c1.scores[|c1.scores| - 1] == []
    ensures r.0.total == c1.total && |r.0.scores| == |c1.scores|
    ensures r.0.scores[..|c1.scores| - 1] == c1.scores[..|c1.scores| - 1]
    ensures |r.0.scores[|c1.scores| - 1]| <= 2
    ensures r.1 == Done ==> |r.0.scores[|c1.scores| - 1]| == 2
    ensures c1.lengths <= r.0.lengths
  {
    if |preds| == 0 then (c1, Raised(IndexError))
    else if "generation" !in preds[0] then (c1, Raised(KeyError))
    else
      match Length(preds[0]["generation"])
      case Err(e) => (c1, Raised(e))
      case Ok(n) =>
        var c2 := c1.(lengths := c1.lengths + n);
        match JudgeOf(preds[0], GenBase)
        case Err(e) => (c2, Raised(e))
        case Ok(g) =>
          match JudgeOf(preds[0], BaseGen)
          case Err(e) => (c2, Raised(e))
          case Ok(b) => (c2.(scores := c2.scores[..|c2.scores| - 1] + [[g, b]]), Done)
  }

  /** `v` is the most preferred verdict in `order` among `js`, or None when
      `js` holds none of them. */
  predicate IsBestVerdict(js: seq<Score>, order: seq<string>, v: Score) {
    (v.None? <==> forall p :: 0 <= p < |order| ==> Some(order[p]) !in js) &&
    (v.Some? ==> exists o :: (0 <= o < |order| && v == Some(order[o]) && v in js &&
      forall p :: 0 <= p < o ==> Some(order[p]) !in js))
  }

  /** `n` is what choosing `v` adds to `lengths`: nothing for None, else the
      length of the first generation whose verdict is `v`. */
  predicate AddedLength(preds: seq<Record>, js: seq<Score>, v: Score, n: int)
    requires |js| == |preds|
  {
    (v.None? && n == 0) ||
    (v.Some? && exists k :: (0 <= k < |js| && js[k] == v && (forall j :: 0 <= j < k ==> js[j] != v) &&
      "generation" in preds[k] && Length(preds[k]["generation"]) == Ok(n)))
  }

  /** Whether a prediction can be scored without raising. */
  predicate Scorable(elem: Record) {
    !IsIncomplete(elem) && elem[GenBase].JStr? && elem[BaseGen].JStr? && Length(elem["generation"]).Ok?
  }

  /** A search over scorable records returns normally, appending the best
      verdict `v` to the entry being recorded and adding the matching length
      `n`. */
  lemma PickVerdictBest(c: Counters, preds: seq<Record>, js: seq<Score>, order: seq<string>) returns (v: Score, n: int)
    requires |js| == |preds| && |c.scores| > 0
    requires forall i :: 0 <= i < |preds| ==> Scorable(preds[i])
    ensures IsBestVerdict(js, order, v) && AddedLength(preds, js, v, n)
    ensures PickVerdict(c, preds, js, order).1 == Done
    ensures PickVerdict(c, preds, js, order).0 == WithVerdict(c, v).(lengths := c.lengths + n)
  {
    var r := PickVerdict(c, preds, js, order);
    match FirstPresent(js, order)
    case None =>
      v, n := None, 0;
      assert r.0 == WithVerdict(c, None);
    case Some(o) =>
      v := Some(order[o]);
      var k := IndexOf(js, v);
      assert Scorable(preds[k]);
      n := Length(preds[k]["generation"]).value;
      assert r.0 == WithVerdict(c, v).(lengths := c.lengths + n);
      assert IsBestVerdict(js, order, v);
  }

  /** `r` is `c` with one more entry, holding the best gen-versus-base verdict
      by Preference and the best swapped verdict by the reversed order, and
      with `lengths` grown by the lengths of the generations they came from. */
  ghost predicate BestEntry(c: Counters, preds: seq<Record>, js1: seq<Score>, js2: seq<Score>, r: Counters)
    requires |js1| == |preds| && |js2| == |preds|
  {
    r.total == c.total + 1 && |r.scores| == |c.scores| + 1 && r.scores[..|c.scores|] == c.scores &&
    var entry := r.scores[|c.scores|];
    |entry| == 2 && IsBestVerdict(js1, Preference, entry[0]) && IsBestVerdict(js2, Reversed(Preference), entry[1]) &&
    exists n1, n2 :: r.lengths == c.lengths + n1 + n2 &&
      AddedLength(preds, js1, entry[0], n1) && AddedLength(preds, js2, entry[1], n2)
  }

  /** "best": the update returns normally and records the best verdicts. */
  lemma BestMode(c: Counters, preds: seq<Record>, js1: seq<Score>, js2: seq<Score>)
    requires forall i :: 0 <= i < |preds| ==> Scorable(preds[i])
    requires |js1| == |preds| && |js2| == |preds|
    requires forall i :: 0 <= i < |preds| ==>
      GenBase in preds[i] && preds[i][GenBase].JStr? && js1[i] == GetJudgeScore(preds[i][GenBase].s)
    requires forall i :: 0 <= i < |preds| ==>
      BaseGen in preds[i] && preds[i][BaseGen].JStr? && js2[i] == GetJudgeScore(preds[i][BaseGen].s)
    ensures Step(c, preds, "best").1 == Done
    ensures BestEntry(c, preds, js1, js2, Step(c, preds, "best").0)
  {
    JudgeColumnIs(preds, GenBase, js1);
    JudgeColumnIs(preds, BaseGen, js2);
    var v1, n1, v2, n2 := BestStepValues(c, preds, js1, js2);
    BestEntryOf(c, preds, js1, js2, v1, n1, v2, n2);
  }

  /** The entry the two searches record satisfies BestEntry. */
  lemma BestEntryOf(c: Counters, preds: seq<Record>, js1: seq<Score>, js2: seq<Score>, v1: Score, n1: int, v2: Score, n2: int)
    requires |js1| == |preds| && |js2| == |preds|
    requires IsBestVerdict(js1, Preference, v1) && AddedLength(preds, js1, v1, n1)
    requires IsBestVerdict(js2, Reversed(Preference), v2) && AddedLength(preds, js2, v2, n2)
    ensures BestEntry(c, preds, js1, js2, Counters(c.scores + [[v1, v2]], c.lengths + n1 + n2, c.total + 1))
  {
    var r := Counters(c.scores + [[v1, v2]], c.lengths + n1 + n2, c.total + 1);
    assert r.scores[..|c.scores|] == c.scores;
    assert r.scores[|c.scores|] == [v1, v2];
  }

  /** The state "best" leaves, from the two searches' verdicts and lengths. */
  lemma BestStepValues(c: Counters, preds: seq<Record>, js1: seq<Score>, js2: seq<Score>) returns (v1: Score, n1: int, v2: Score, n2: int)
    requires forall i :: 0 <= i < |preds| ==> Scorable(preds[i])
    requires JudgeColumn(preds, GenBase) == Ok(js1) && JudgeColumn(preds, BaseGen) == Ok(js2)
    ensures IsBestVerdict(js1, Preference, v1) && AddedLength(preds, js1, v1, n1)
    ensures IsBestVerdict(js2, Reversed(Preference), v2) && AddedLength(preds, js2, v2, n2)
    ensures Step(c, preds, "best").1 == Done
    ensures Step(c, preds, "best").0 == Counters(c.scores + [[v1, v2]], c.lengths + n1 + n2, c.total + 1)
  {
    var c1 := c.(total := c.total + 1, scores := c.scores + [[]]);
    StepBest(c, preds);
    v1, n1 := PickVerdictBest(c1, preds, js1, Preference);
    var c2 := WithVerdict(c1, v1).(lengths := c1.lengths + n1);
    v2, n2 := PickVerdictBest(c2, preds, js2, Reversed(Preference));
    BestStepOk(c1, preds, js1, js2);
    TwoVerdicts(c, v1, n1, v2, n2);
  }

  /** Opening an entry and appending two verdicts to it. */
  lemma TwoVerdicts(c: Counters, v1: Score, n1: int, v2: Score, n2: int)
    ensures var c1 := c.(total := c.total + 1, scores := c.scores + [[]]);
      var c2 := WithVerdict(c1, v1).(lengths := c1.lengths + n1);
      WithVerdict(c2, v2).(lengths := c2.lengths + n2) == Counters(c.scores + [[v1, v2]], c.lengths + n1 + n2, c.total + 1)
  {
    var c1 := c.(total := c.total + 1, scores := c.scores + [[]]);
    var c2 := WithVerdict(c1, v1).(lengths := c1.lengths + n1);
    var r := WithVerdict(c2, v2).(lengths := c2.lengths + n2);
    assert c1.scores[..|c.scores|] == c.scores;
    assert c2.scores[..|c.scores|] == c.scores && c2.scores[|c.scores|] == [v1];
    assert r.scores[..|c.scores|] == c.scores && r.scores[|c.scores|] == [v1, v2];
    assert r.scores == c.scores + [[v1, v2]];
  }

  /** Step in mode "best" is BestStep after opening the entry. */
  lemma StepBest(c: Counters, preds: seq<Record>)
    ensures Step(c, preds, "best") == BestStep(c.(total := c.total + 1, scores := c.scores + [[]]), preds)
  {
  }

  /** BestStep once both judgement columns are read and the first search
      returns normally: the second search runs on the first one's state. */
  lemma BestStepOk(c1: Counters, preds: seq<Record>, js1: seq<Score>, js2: seq<Score>)
    requires |c1.scores| > 0 && c1.scores[|c1.scores| - 1] == []
    requires JudgeColumn(preds, GenBase) == Ok(js1) && JudgeColumn(preds, BaseGen) == Ok(js2)
    requires PickVerdict(c1, preds, js1, Preference).1 == Done
    ensures BestStep(c1, preds) == PickVerdict(PickVerdict(c1, preds, js1, Preference).0, preds, js2, Reversed(Preference))
  {
  }

  lemma JudgeColumnIs(preds: seq<Record>, key: string, js: seq<Score>)
    requires |js| == |preds|
    requires forall i :: 0 <= i < |preds| ==> key in preds[i] && preds[i][key].JStr? && js[i] == GetJudgeScore(preds[i][key].s)
    ensures JudgeColumn(preds, key) == Ok(js)
  {
    var jc := JudgeColumn(preds, key);
    assert jc.Ok?;
    assert jc.value == js;
  }

  /** "first": the entry holds the first generation's two verdicts, and
      `lengths` grows by that generation's length. */
  lemma FirstMode(c: Counters, preds: seq<Record>)
    requires |preds| > 0 && Scorable(preds[0])
    ensures Step(c, preds, "first") == (Counters(
      c.scores + [[GetJudgeScore(preds[0][GenBase].s), GetJudgeScore(preds[0][BaseGen].s)]],
      c.lengths + Length(preds[0]["generation"]).value, c.total + 1), Done)
  {
    var c1 := c.(total := c.total + 1, scores := c.scores + [[]]);
    assert c1.scores[..|c1.scores| - 1] == c.scores;
  }

  /** An incomplete first generation makes "first" raise; a missing
      `generation` raises KeyError before anything is recorded. */
  lemma FirstFailsOnIncomplete(c: Counters, preds: seq<Record>)
    requires |preds| > 0 && IsIncomplete(preds[0])
    ensures Step(c, preds, "first").1.Raised?
    ensures "generation" !in preds[0] ==> Step(c, preds, "first") == (c.(total := c.total + 1, scores := c.scores + [[]]), Raised(KeyError))
  {
  }

  /** `update` never raises RuntimeError, which only `read_predictions`
      raises. */
  lemma NoRuntimeError(c: Counters, preds: seq<Record>, mode: string)
    ensures Step(c, preds, mode).1 != Raised(RuntimeError)
  {
    var c1 := c.(total := c.total + 1, scores := c.scores + [[]]);
    if mode == "best" {
      StepBest(c, preds);
      BestNoRuntimeError(c1, preds);
    }
  }

  lemma BestNoRuntimeError(c1: Counters, preds: seq<Record>)
    requires |c1.scores| > 0 && c1.scores[|c1.scores| - 1] == []
    ensures BestStep(c1, preds).1 != Raised(RuntimeError)
  {
    match JudgeColumn(preds, GenBase)
    case Err(e) =>
      assert BestStep(c1, preds).1 == Raised(e);
    case Ok(js) =>
      PickNoRuntimeError(c1, preds, js, Preference);
      var p := PickVerdict(c1, preds, js, Preference);
      if p.1.Raised? {
        assert BestStep(c1, preds).1 == p.1;
      } else {
        match JudgeColumn(preds, BaseGen)
        case Err(e) =>
          assert BestStep(c1, preds).1 == Raised(e);
        case Ok(js2) =>
          PickNoRuntimeError(p.0, preds, js2, Reversed(Preference));
          assert BestStep(c1, preds).1 == PickVerdict(p.0, preds, js2, Reversed(Preference)).1;
      }
  }

  lemma PickNoRuntimeError(c: Counters, preds: seq<Record>, js: seq<Score>, order: seq<string>)
    requires |js| == |preds| && |c.scores| > 0
    ensures PickVerdict(c, preds, js, order).1 != Raised(RuntimeError)
  {
  }

  /** Complete records never make `update` raise KeyError. */
  lemma CompleteNoKeyError(c: Counters, preds: seq<Record>, mode: string)
    requires forall i :: 0 <= i < |preds| ==> !IsIncomplete(preds[i])
    ensures Step(c, preds, mode).1 != Raised(KeyError)
  {
    var c1 := c.(total := c.total + 1, scores := c.scores + [[]]);
    if mode == "best" {
      StepBest(c, preds);
      BestNoKeyError(c1, preds);
    }
  }

  lemma BestNoKeyError(c1: Counters, preds: seq<Record>)
    requires |c1.scores| > 0 && c1.scores[|c1.scores| - 1] == []
    requires forall i :: 0 <= i < |preds| ==> !IsIncomplete(preds[i])
    ensures BestStep(c1, preds).1 != Raised(KeyError)
  {
    match JudgeColumn(preds, GenBase)
    case Err(e) =>
      assert BestStep(c1, preds).1 == Raised(e);
    case Ok(js) =>
      PickNoKeyError(c1, preds, js, Preference);
      var p := PickVerdict(c1, preds, js, Preference);
      if p.1.Raised? {
        assert BestStep(c1, preds).1 == p.1;
      } else {
        match JudgeColumn(preds, BaseGen)
        case Err(e) =>
          assert BestStep(c1, preds).1 == Raised(e);
        case Ok(js2) =>
          PickNoKeyError(p.0, preds, js2, Reversed(Preference));
          assert BestStep(c1, preds).1 == PickVerdict(p.0, preds, js2, Reversed(Preference)).1;
      }
  }

  lemma PickNoKeyError(c: Counters, preds: seq<Record>, js: seq<Score>, order: seq<string>)
    requires |js| == |preds| && |c.scores| > 0
    requires forall i :: 0 <= i < |preds| ==> !IsIncomplete(preds[i])
    ensures PickVerdict(c, preds, js, order).1 != Raised(KeyError)
  {
  }

  class ArenaEval {
    var scores: seq<seq<Score>>
    var lengths: int
    var total: int

    function State(): Counters
      reads this
    {
      Counters(scores, lengths, total)
    }

    constructor ()
      ensures State() == Initial
    {
      scores, lengths, total := [], 0, 0;
    }

    method Reset()
      modifies this
      ensures State() == Initial
    {
      scores := [];
      lengths := 0;
      total := 0;
    }

    method Update(preds: seq<Record>, mode: string) returns (status: Status)
      modifies this
      ensures (State(), status) == Step(old(State()), preds, mode)
    {
      total := total + 1;
      scores := scores + [[]];
      if mode == "best" {
        var judged := JudgeColumn(preds, GenBase);
        if judged.Err? {
          return Raised(judged.error);
        }
        status := AppendBest(preds, judged.value, Preference);
        if status.Raised? {
          return;
        }
        judged := JudgeColumn(preds, BaseGen);
        if judged.Err? {
          return Raised(judged.error);
        }
        status := AppendBest(preds, judged.value, Reversed(Preference));
      } else if mode == "first" {
        if |preds| == 0 {
          return Raised(IndexError);
        }
        if "generation" !in preds[0] {
          return Raised(KeyError);
        }
        var n := Length(preds[0]["generation"]);
        if n.Err? {
          return Raised(n.error);
        }
        lengths := lengths + n.value;
        var g := JudgeOf(preds[0], GenBase);
        if g.Err? {
          return Raised(g.error);
        }
        var b := JudgeOf(preds[0], BaseGen);
        if b.Err? {
          return Raised(b.error);
        }
        scores := scores[..|scores| - 1] + [[g.value, b.value]];
        status := Done;
      } else {
        status := Raised(ValueError);
      }
    }

    /** One for/else search of `update` over `order`. */
    method AppendBest(preds: seq<Record>, js: seq<Score>, order: seq<string>) returns (status: Status)
      requires |js| == |preds| && |scores| > 0
      modifies this
      ensures (State(), status) == PickVerdict(old(State()), preds, js, order)
    {
      var o := 0;
      while o < |order|
        invariant 0 <= o <= |order|
        invariant forall p :: 0 <= p < o ==> Some(order[p]) !in js
        invariant State() == old(State())
      {
        if Some(order[o]) in js {
          scores := scores[..|scores| - 1] + [scores[|scores| - 1] + [Some(order[o])]];
          var bestId := IndexOf(js, Some(order[o]));
          if "generation" !in preds[bestId] {
            return Raised(KeyError);
          }
          var n := Length(preds[bestId]["generation"]);
          if n.Err? {
            return Raised(n.error);
          }
          lengths := lengths + n.value;
          return Done;
        }
        o := o + 1;
      }
      scores := scores[..|scores| - 1] + [scores[|scores| - 1] + [None]];
      status := Done;
    }
  }
}
