/** The pairwise verdict a judge model writes into its text, in the
    `[[A>B]]` notation: `ArenaEval._get_judge_score` and the regular
    expression `\[\[([AB<>=]+)\]\]` it scans the text with. */
module Verdict {
  import opened Values

  predicate IsVerdictChar(c: char) {
    c == 'A' || c == 'B' || c == '<' || c == '>' || c == '='
  }

  /** What the capturing group `([AB<>=]+)` can hold. */
  predicate IsToken(t: string) {
    |t| > 0 && forall i :: 0 <= i < |t| ==> IsVerdictChar(t[i])
  }

  predicate NoOpenBracket(s: string) {
    forall i :: 0 <= i < |s| ==> s[i] != '['
  }

  /** Length of the longest prefix of `s` made of verdict characters: what the
      greedy `[AB<>=]+` takes. No shorter prefix can be followed by `]]`,
      since `]` is not a verdict character, so backtracking never helps. */
  function RunLength(s: string): (n: nat)
    ensures n <= |s|
    ensures forall i :: 0 <= i < n ==> IsVerdictChar(s[i])
    ensures n < |s| ==> !IsVerdictChar(s[n])
  {
    if |s| > 0 && IsVerdictChar(s[0]) then 1 + RunLength(s[1..]) else 0
  }

  /** Whether the pattern matches at the very start of `s`. */
  predicate MatchesAtStart(s: string) {
    |s| >= 2 && s[0] == '[' && s[1] == '[' &&
    var n := RunLength(s[2..]);
    0 < n && n + 4 <= |s| && s[n + 2] == ']' && s[n + 3] == ']'
  }

  /** `pattern.findall(s)`: the groups of the non-overlapping matches, left to
      right; after a match the scan resumes at its end, otherwise one
      character further on. */
  function FindAll(s: string): (ms: seq<string>)
    ensures forall i :: 0 <= i < |ms| ==> IsToken(ms[i])
    decreases |s|
  {
    if |s| == 0 then []
    else if MatchesAtStart(s) then
      var n := RunLength(s[2..]);
      [s[2..n + 2]] + FindAll(s[n + 4..])
    else FindAll(s[1..])
  }

  /** `_get_judge_score(judgment)`. The source also drops empty matches and
      strips newlines from the one it returns; both leave a token unchanged
      (FindAll's postcondition), so they are not repeated here. */
  function GetJudgeScore(judgment: string): (r: Option<string>)
    ensures r.Some? <==> |FindAll(judgment)| > 0 && forall i :: 0 <= i < |FindAll(judgment)| ==> FindAll(judgment)[i] == FindAll(judgment)[0]
    ensures r.Some? ==> r.value == FindAll(judgment)[0] && IsToken(r.value)
  {
    var matches := FindAll(judgment);
    var distinct := set m | m in matches;
    DistinctCount(matches, distinct);
    if |distinct| == 0 then None
    else if |distinct| == 1 then Some(matches[0])
    else None
  }

  /** The number of distinct matches is 0 exactly when there are none, and 1
      exactly when they all equal the first. */
  lemma DistinctCount(ms: seq<string>, d: set<string>)
    requires d == set m | m in ms
    ensures |d| == 0 <==> |ms| == 0
    ensures |ms| > 0 ==> (|d| == 1 <==> forall i :: 0 <= i < |ms| ==> ms[i] == ms[0])
  {
    if |ms| > 0 {
      assert ms[0] in d;
      if forall i :: 0 <= i < |ms| ==> ms[i] == ms[0] {
        assert d == {ms[0]};
      } else {
        var i :| 0 <= i < |ms| && ms[i] != ms[0];
        assert {ms[0], ms[i]} <= d;
        assert |{ms[0], ms[i]}| == 2;
        SubsetCard({ms[0], ms[i]}, d);
      }
    }
  }

  lemma SubsetCard(a: set<string>, b: set<string>)
    requires a <= b
    ensures |a| <= |b|
  {
    assert b == a + (b - a);
  }

  /** Text without an opening bracket contributes no match to what follows it. */
  lemma {:induction false} FindAllSkip(x: string, y: string)
    requires NoOpenBracket(x)
    ensures FindAll(x + y) == FindAll(y)
  {
    if |x| > 0 {
      assert (x + y)[1..] == x[1..] + y;
      FindAllSkip(x[1..], y);
    } else {
      assert x + y == y;
    }
  }

  lemma {:induction false} RunLengthOfToken(t: string, y: string)
    requires forall i :: 0 <= i < |t| ==> IsVerdictChar(t[i])
    ensures RunLength(t + "]]" + y) == |t|
  {
    if |t| > 0 {
      assert (t + "]]" + y)[1..] == t[1..] + "]]" + y;
      RunLengthOfToken(t[1..], y);
    }
  }

  /** A bracketed token is matched whole, and the scan resumes after it. */
  lemma FindAllToken(t: string, y: string)
    requires IsToken(t)
    ensures FindAll("[[" + t + "]]" + y) == [t] + FindAll(y)
  {
    var s := "[[" + t + "]]" + y;
    assert s[2..] == t + "]]" + y;
    RunLengthOfToken(t, y);
    assert s[2..|t| + 2] == t;
    assert s[|t| + 4..] == y;
  }

  /** A text holding one verdict, surrounded by text without brackets, yields
      that verdict. */
  lemma SingleVerdict(x: string, t: string, y: string)
    requires NoOpenBracket(x) && NoOpenBracket(y) && IsToken(t)
    ensures GetJudgeScore(x + "[[" + t + "]]" + y) == Some(t)
  {
    assert x + "[[" + t + "]]" + y == x + ("[[" + t + "]]" + y);
    FindAllSkip(x, "[[" + t + "]]" + y);
    FindAllToken(t, y);
    FindAllSkip(y, "");
    assert y + "" == y;
  }

  /** The same verdict written twice still counts. */
  lemma RepeatedVerdict(t: string, x: string)
    requires NoOpenBracket(x) && IsToken(t)
    ensures GetJudgeScore("[[" + t + "]]" + x + "[[" + t + "]]") == Some(t)
  {
    var second := "[[" + t + "]]";
    assert "[[" + t + "]]" + x + second == "[[" + t + "]]" + (x + second);
    FindAllToken(t, x + second);
    FindAllSkip(x, second);
    assert second == "[[" + t + "]]" + "";
    FindAllToken(t, "");
    assert "[[" + t + "]]" + x + "[[" + t + "]]" == "[[" + t + "]]" + x + second;
    var ms := FindAll("[[" + t + "]]" + x + second);
    assert ms == [t, t];
    assert forall i :: 0 <= i < |ms| ==> ms[i] == ms[0];
  }

  /** Two different verdicts in one text give no score. */
  lemma ConflictingVerdicts(t1: string, x: string, t2: string)
    requires NoOpenBracket(x) && IsToken(t1) && IsToken(t2) && t1 != t2
    ensures GetJudgeScore("[[" + t1 + "]]" + x + "[[" + t2 + "]]") == None
  {
    var second := "[[" + t2 + "]]";
    assert "[[" + t1 + "]]" + x + second == "[[" + t1 + "]]" + (x + second);
    FindAllToken(t1, x + second);
    FindAllSkip(x, second);
    assert second == "[[" + t2 + "]]" + "";
    FindAllToken(t2, "");
    assert "[[" + t1 + "]]" + x + "[[" + t2 + "]]" == "[[" + t1 + "]]" + x + second;
    var ms := FindAll("[[" + t1 + "]]" + x + second);
    assert ms == [t1, t2];
    assert ms[1] != ms[0];
  }

  /** A text without any opening bracket gives no score. */
  lemma NoVerdict(s: string)
    requires NoOpenBracket(s)
    ensures GetJudgeScore(s) == None
  {
    FindAllSkip(s, "");
    assert s + "" == s;
  }
}
