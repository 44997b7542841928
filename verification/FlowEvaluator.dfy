/** The choice of the next step from the transition list (packages/core/src/flow/flow-evaluator.ts). */
module FlowEvaluator {
  import opened Common

  datatype Transition = Transition(fromStepId: string, onStatus: string, toStepId: Option<string>)

  datatype FlowError = Ambiguous(count: nat)

  // ---------------------------------------------------------------- patterns

  predicate Wildcard(c: char) {
    c == '*' || c == '?'
  }

  /** The dot of a regular expression without the s flag. */
  predicate Dot(c: char) {
    c != '\n' && c != '\r' && c != '\U{2028}' && c != '\U{2029}'
  }

  /** The anchored regular expression a pattern is turned into: `*` is `.*`, `?` is `.`, the rest is literal. */
  predicate Glob(pattern: string, status: string)
    decreases |pattern| + |status|
  {
    if pattern == "" then status == ""
    else if pattern[0] == '*' then
      || Glob(pattern[1..], status)
      || (status != "" && Dot(status[0]) && Glob(pattern, status[1..]))
    else
      && status != ""
      && (if pattern[0] == '?' then Dot(status[0]) else pattern[0] == status[0])
      && Glob(pattern[1..], status[1..])
  }

  predicate HasWildcard(pattern: string) {
    '*' in pattern || '?' in pattern
  }

  predicate MatchesPattern(pattern: string, status: string) {
    if !HasWildcard(pattern) then pattern == status else Glob(pattern, status)
  }

  function Literals(pattern: string): nat {
    if pattern == "" then 0 else Literals(pattern[..|pattern| - 1]) + (if Wildcard(pattern[|pattern| - 1]) then 0 else 1)
  }

  const EXACT_BONUS := 1000

  function Specificity(pattern: string): nat {
    if HasWildcard(pattern) then Literals(pattern) else Literals(pattern) + EXACT_BONUS
  }

  /** The characters of a pattern that are neither `*` nor `?`. */
  ghost function LiteralCount(pattern: string): int {
    |pattern| - multiset(pattern)['*'] - multiset(pattern)['?']
  }

  lemma {:induction false} LiteralsCounted(pattern: string)
    ensures Literals(pattern) == LiteralCount(pattern)
    decreases |pattern|
  {
    if pattern != "" {
      var (init, last) := (pattern[..|pattern| - 1], pattern[|pattern| - 1]);
      LiteralsCounted(init);
      assert pattern == init + [last];
    }
  }

  /** The score is the number of literal characters, plus a thousand for a pattern without wildcards. */
  method PatternSpecificity(pattern: string) returns (score: nat)
    ensures score == Specificity(pattern)
    ensures '*' in pattern || '?' in pattern ==> score == |pattern| - multiset(pattern)['*'] - multiset(pattern)['?']
    ensures '*' !in pattern && '?' !in pattern ==> score == |pattern| + 1000
  {
    LiteralsCounted(pattern);
    score := 0;
    for i := 0 to |pattern|
      invariant score == Literals(pattern[..i])
    {
      if pattern[i] != '*' && pattern[i] != '?' {
        score := score + 1;
      }
      assert pattern[..i + 1][..i] == pattern[..i];
    }
    assert pattern[..|pattern|] == pattern;
    if !HasWildcard(pattern) {
      score := score + EXACT_BONUS;
    }
  }

  // What a match means, without the matcher: the status is cut into one piece per pattern character.

  const LINE_BREAKS := ['\n', '\r', '\U{2028}', '\U{2029}']

  ghost predicate Piece(c: char, text: string) {
    if c == '*' then forall i :: 0 <= i < |text| ==> text[i] !in LINE_BREAKS
    else if c == '?' then |text| == 1 && text[0] !in LINE_BREAKS
    else text == [c]
  }

  ghost predicate Cut(pattern: string, status: string, pieces: seq<string>) {
    && |pieces| == |pattern|
    && Joined(pieces) == status
    && forall i :: 0 <= i < |pattern| ==> Piece(pattern[i], pieces[i])
  }

  ghost function Joined(pieces: seq<string>): string {
    if pieces == [] then "" else pieces[0] + Joined(pieces[1..])
  }

  lemma {:induction false} GlobCuts(pattern: string, status: string) returns (pieces: seq<string>)
    requires Glob(pattern, status)
    ensures Cut(pattern, status, pieces)
    decreases |pattern| + |status|
  {
    if pattern == "" {
      pieces := [];
    } else if pattern[0] == '*' && !Glob(pattern[1..], status) {
      var rest := GlobCuts(pattern, status[1..]);
      var first := [status[0]] + rest[0];
      pieces := rest[0 := first];
      assert pieces[1..] == rest[1..];
      assert Joined(pieces) == first + Joined(rest[1..]) == [status[0]] + Joined(rest) == status;
      forall i | 0 <= i < |pattern| ensures Piece(pattern[i], pieces[i]) {
        assert Piece(pattern[i], rest[i]);
        if i == 0 {
          forall j | 0 <= j < |first| ensures Dot(first[j]) {
            if j > 0 { assert first[j] == rest[0][j - 1]; }
          }
        }
      }
    } else {
      var first := if pattern[0] == '*' then "" else [status[0]];
      var tail := if pattern[0] == '*' then status else status[1..];
      var rest := GlobCuts(pattern[1..], tail);
      pieces := [first] + rest;
      assert pieces[1..] == rest;
      assert Joined(pieces) == first + tail == status;
      forall i | 0 <= i < |pattern| ensures Piece(pattern[i], pieces[i]) {
        if i > 0 { assert pattern[i] == pattern[1..][i - 1] && pieces[i] == rest[i - 1]; }
      }
    }
  }

  lemma {:induction false} CutsGlob(pattern: string, status: string, pieces: seq<string>)
    requires Cut(pattern, status, pieces)
    ensures Glob(pattern, status)
    decreases |pattern| + |status|
  {
    if pattern != "" {
      assert Piece(pattern[0], pieces[0]);
      var rest := pieces[1..];
      forall i | 0 <= i < |pattern[1..]| ensures Piece(pattern[1..][i], rest[i]) {
        assert pattern[1..][i] == pattern[i + 1] && rest[i] == pieces[i + 1];
      }
      if pieces[0] == "" {
        assert status == Joined(rest);
        CutsGlob(pattern[1..], status, rest);
      } else {
        assert status[0] == pieces[0][0];
        if pattern[0] == '*' {
          var shorter := pieces[0 := pieces[0][1..]];
          assert shorter[1..] == rest;
          assert Joined(shorter) == status[1..];
          forall i | 0 <= i < |pattern| ensures Piece(pattern[i], shorter[i]) {
            assert Piece(pattern[i], pieces[i]);
          }
          CutsGlob(pattern, status[1..], shorter);
        } else {
          assert status[1..] == Joined(rest);
          CutsGlob(pattern[1..], status[1..], rest);
        }
      }
    }
  }

  /** The matcher accepts a status exactly if it can be cut into one fitting piece per pattern character. */
  lemma GlobMeaning(pattern: string, status: string)
    ensures Glob(pattern, status) <==> exists pieces :: Cut(pattern, status, pieces)
  {
    if Glob(pattern, status) {
      var pieces := GlobCuts(pattern, status);
    }
    if exists pieces :: Cut(pattern, status, pieces) {
      var pieces :| Cut(pattern, status, pieces);
      CutsGlob(pattern, status, pieces);
    }
  }

  // ---------------------------------------------------------------- specificity

  lemma {:induction false} LiteralsHead(pattern: string)
    requires pattern != ""
    ensures Literals(pattern) == (if Wildcard(pattern[0]) then 0 else 1) + Literals(pattern[1..])
    decreases |pattern|
  {
    var n := |pattern|;
    if n == 1 {
      assert pattern[..0] == "" && pattern[1..] == "";
    } else {
      LiteralsHead(pattern[..n - 1]);
      assert pattern[..n - 1][1..] == pattern[1..][..n - 2];
    }
  }

  /** A pattern cannot match a status with fewer characters than it has literals. */
  lemma {:induction false} GlobLength(pattern: string, status: string)
    requires Glob(pattern, status)
    ensures Literals(pattern) <= |status|
    decreases |pattern| + |status|
  {
    if pattern != "" {
      LiteralsHead(pattern);
      if pattern[0] == '*' {
        if Glob(pattern[1..], status) { GlobLength(pattern[1..], status); } else { GlobLength(pattern, status[1..]); }
      } else {
        GlobLength(pattern[1..], status[1..]);
      }
    }
  }

  lemma {:induction false} LiteralsOfExact(pattern: string)
    requires !HasWildcard(pattern)
    ensures Literals(pattern) == |pattern|
    decreases |pattern|
  {
    if pattern != "" {
      var init := pattern[..|pattern| - 1];
      assert '*' !in init && '?' !in init;
      LiteralsOfExact(init);
    }
  }

  /** For a status of any length an exact match outranks every wildcard match. */
  lemma ExactOutranksWildcard(exact: string, wild: string, status: string)
    requires !HasWildcard(exact) && MatchesPattern(exact, status)
    requires HasWildcard(wild) && MatchesPattern(wild, status)
    ensures Specificity(exact) > Specificity(wild)
  {
    LiteralsOfExact(exact);
    GlobLength(wild, status);
  }

  // ---------------------------------------------------------------- evaluation

  predicate Matches(t: Transition, fromStepId: string, status: string) {
    t.fromStepId == fromStepId && MatchesPattern(t.onStatus, status)
  }

  function Matching(ts: seq<Transition>, fromStepId: string, status: string): seq<Transition> {
    if ts == [] then []
    else (if Matches(ts[0], fromStepId, status) then [ts[0]] else []) + Matching(ts[1..], fromStepId, status)
  }

  function MaxSpecificity(ts: seq<Transition>): nat {
    if ts == [] then 0 else Max(Specificity(ts[0].onStatus), MaxSpecificity(ts[1..]))
  }

  function OfSpecificity(ts: seq<Transition>, specificity: nat): seq<Transition> {
    if ts == [] then []
    else (if Specificity(ts[0].onStatus) == specificity then [ts[0]] else []) + OfSpecificity(ts[1..], specificity)
  }

  function Best(ts: seq<Transition>, fromStepId: string, status: string): seq<Transition> {
    var matches := Matching(ts, fromStepId, status);
    OfSpecificity(matches, MaxSpecificity(matches))
  }

  /** None both for an explicit END and for no match at all; two best matches are an error. */
  function Evaluate(ts: seq<Transition>, fromStepId: string, status: string): Result<Option<string>, FlowError> {
    if |Matching(ts, fromStepId, status)| == 0 then Ok(None) else
    var best := Best(ts, fromStepId, status);
    if |best| > 1 then Thrown(Ambiguous(|best|))
    else if |best| == 1 then Ok(best[0].toStepId)
    else Ok(None)
  }

  predicate HasMatch(ts: seq<Transition>, fromStepId: string, status: string) {
    exists i :: 0 <= i < |ts| && Matches(ts[i], fromStepId, status)
  }

  lemma {:induction false} MatchingCounts(ts: seq<Transition>, fromStepId: string, status: string, t: Transition)
    ensures multiset(Matching(ts, fromStepId, status))[t]
         == if Matches(t, fromStepId, status) then multiset(ts)[t] else 0
  {
    if ts != [] {
      assert ts == [ts[0]] + ts[1..];
      MatchingCounts(ts[1..], fromStepId, status, t);
    }
  }

  lemma {:induction false} OfSpecificityCounts(ts: seq<Transition>, specificity: nat, t: Transition)
    ensures multiset(OfSpecificity(ts, specificity))[t]
         == if Specificity(t.onStatus) == specificity then multiset(ts)[t] else 0
  {
    if ts != [] {
      assert ts == [ts[0]] + ts[1..];
      OfSpecificityCounts(ts[1..], specificity, t);
    }
  }

  lemma {:induction false} MaxSpecificityIsMax(ts: seq<Transition>)
    ensures forall t :: t in ts ==> Specificity(t.onStatus) <= MaxSpecificity(ts)
    ensures ts != [] ==> exists t :: t in ts && Specificity(t.onStatus) == MaxSpecificity(ts)
  {
    if ts != [] {
      MaxSpecificityIsMax(ts[1..]);
      assert ts[0] in ts;
      if MaxSpecificity(ts) != Specificity(ts[0].onStatus) {
        assert ts[1..] != [] by { if ts[1..] == [] { assert MaxSpecificity(ts[1..]) == 0; } }
        var t :| t in ts[1..] && Specificity(t.onStatus) == MaxSpecificity(ts[1..]);
        assert t in ts;
      }
    }
  }

  /** How often a transition is among the best: as often as it is declared, if no match beats it. */
  lemma BestCounts(ts: seq<Transition>, fromStepId: string, status: string, t: Transition)
    ensures multiset(Best(ts, fromStepId, status))[t] ==
            if Matches(t, fromStepId, status)
               && (forall u :: u in ts && Matches(u, fromStepId, status) ==> Specificity(u.onStatus) <= Specificity(t.onStatus))
            then multiset(ts)[t] else 0
  {
    hide Specificity, Matches;
    var matches := Matching(ts, fromStepId, status);
    MatchingCounts(ts, fromStepId, status, t);
    OfSpecificityCounts(matches, MaxSpecificity(matches), t);
    MaxSpecificityIsMax(matches);
    forall u ensures u in matches <==> u in ts && Matches(u, fromStepId, status) {
      MatchingCounts(ts, fromStepId, status, u);
      assert u in matches <==> u in multiset(matches);
      assert u in ts <==> u in multiset(ts);
    }
    if t in ts && Matches(t, fromStepId, status) {
      var top :| top in matches && Specificity(top.onStatus) == MaxSpecificity(matches);
    } else {
      assert multiset(ts)[t] == 0 || !Matches(t, fromStepId, status);
    }
  }

  lemma BestNonempty(ts: seq<Transition>, fromStepId: string, status: string)
    ensures |Best(ts, fromStepId, status)| == 0 <==> |Matching(ts, fromStepId, status)| == 0
    ensures HasMatch(ts, fromStepId, status) <==> |Matching(ts, fromStepId, status)| > 0
  {
    hide Specificity, Matches;
    var matches := Matching(ts, fromStepId, status);
    MaxSpecificityIsMax(matches);
    if matches != [] {
      var top :| top in matches && Specificity(top.onStatus) == MaxSpecificity(matches);
      OfSpecificityCounts(matches, MaxSpecificity(matches), top);
      assert top in multiset(Best(ts, fromStepId, status));
      MatchingCounts(ts, fromStepId, status, top);
      assert top in multiset(ts);
      assert top in ts;
    }
    if HasMatch(ts, fromStepId, status) {
      var i :| 0 <= i < |ts| && Matches(ts[i], fromStepId, status);
      MatchingCounts(ts, fromStepId, status, ts[i]);
      assert ts[i] in multiset(ts);
      assert ts[i] in multiset(matches);
    }
  }

  /** The order in which transitions are declared decides nothing: not the target, not the ambiguity, not its count. */
  lemma EvaluateIgnoresOrder(ts: seq<Transition>, us: seq<Transition>, fromStepId: string, status: string)
    requires multiset(ts) == multiset(us)
    ensures Evaluate(ts, fromStepId, status) == Evaluate(us, fromStepId, status)
    ensures HasMatch(ts, fromStepId, status) == HasMatch(us, fromStepId, status)
  {
    hide Specificity, Matches, HasMatch;
    var (a, b) := (Best(ts, fromStepId, status), Best(us, fromStepId, status));
    forall t ensures multiset(a)[t] == multiset(b)[t] {
      BestCounts(ts, fromStepId, status, t);
      BestCounts(us, fromStepId, status, t);
      forall u ensures u in ts <==> u in us {
        assert u in ts <==> u in multiset(ts);
        assert u in us <==> u in multiset(us);
      }
    }
    assert multiset(a) == multiset(b);
    assert |a| == |multiset(a)| == |b|;
    BestNonempty(ts, fromStepId, status);
    BestNonempty(us, fromStepId, status);
    if |a| == 1 {
      assert a[0] in multiset(a);
      assert a[0] in b && b == [b[0]];
    }
  }

  /** No match beats `t`, and no other declared transition equals its rank. */
  ghost predicate Winner(ts: seq<Transition>, fromStepId: string, status: string, t: Transition) {
    && Matches(t, fromStepId, status) && multiset(ts)[t] == 1
    && forall u :: u in ts && Matches(u, fromStepId, status) && u != t ==> Specificity(u.onStatus) < Specificity(t.onStatus)
  }

  /** A transition is followed exactly if it is declared once and strictly outranks every other match. */
  lemma EvaluateFollowsWinner(ts: seq<Transition>, fromStepId: string, status: string, target: Option<string>)
    requires HasMatch(ts, fromStepId, status)
    ensures Evaluate(ts, fromStepId, status) == Ok(target)
       <==> exists t :: Winner(ts, fromStepId, status, t) && t.toStepId == target
  {
    hide Specificity, Matches, HasMatch;
    var best := Best(ts, fromStepId, status);
    BestNonempty(ts, fromStepId, status);
    if |best| == 1 {
      var t := best[0];
      assert best == [t];
      WinnerIsOnlyBest(ts, fromStepId, status, t);
      forall u | Winner(ts, fromStepId, status, u) ensures u == t {
        WinnerIsOnlyBest(ts, fromStepId, status, u);
      }
    } else {
      forall u ensures !Winner(ts, fromStepId, status, u) {
        WinnerIsOnlyBest(ts, fromStepId, status, u);
      }
    }
  }

  lemma WinnerIsOnlyBest(ts: seq<Transition>, fromStepId: string, status: string, t: Transition)
    ensures Winner(ts, fromStepId, status, t) <==> Best(ts, fromStepId, status) == [t]
  {
    hide Specificity, Matches, HasMatch, Best;
    var best := Best(ts, fromStepId, status);
    forall u ensures u in ts <==> multiset(ts)[u] > 0 {
      assert u in ts <==> u in multiset(ts);
    }
    BestCounts(ts, fromStepId, status, t);
    if Winner(ts, fromStepId, status, t) {
      forall u ensures multiset(best)[u] == multiset{t}[u] {
        BestCounts(ts, fromStepId, status, u);
      }
      assert multiset(best) == multiset{t};
      assert |best| == |multiset(best)| == 1;
      assert best[0] in multiset(best);
    }
    if best == [t] {
      assert multiset(best)[t] == 1;
      forall u | u in ts && Matches(u, fromStepId, status) && u != t
        ensures Specificity(u.onStatus) < Specificity(t.onStatus)
      {
        BestCounts(ts, fromStepId, status, u);
        assert multiset(best)[u] == 0;
      }
    }
  }

  // What an evaluation means, without the matcher and the scores.

  ghost predicate Wild(pattern: string) {
    '*' in pattern || '?' in pattern
  }

  /** A pattern without wildcards is the status itself; another one cuts it into fitting pieces. */
  ghost predicate Fits(pattern: string, status: string) {
    if Wild(pattern) then exists pieces :: Cut(pattern, status, pieces) else pattern == status
  }

  ghost predicate Applies(t: Transition, fromStepId: string, status: string) {
    t.fromStepId == fromStepId && Fits(t.onStatus, status)
  }

  /** An exact pattern is preferred to a wildcard one, and of two wildcard patterns the one with more literal characters. */
  ghost predicate Preferred(better: string, worse: string) {
    Wild(worse) && (Wild(better) ==> LiteralCount(better) > LiteralCount(worse))
  }

  lemma AppliesIffMatches(t: Transition, fromStepId: string, status: string)
    ensures Applies(t, fromStepId, status) <==> Matches(t, fromStepId, status)
  {
    GlobMeaning(t.onStatus, status);
    hide Glob, Cut;
  }

  lemma PreferredRanks(t: Transition, u: Transition, fromStepId: string, status: string)
    requires Applies(t, fromStepId, status) && Applies(u, fromStepId, status)
    ensures Preferred(t.onStatus, u.onStatus) <==> Specificity(t.onStatus) > Specificity(u.onStatus)
  {
    AppliesIffMatches(t, fromStepId, status);
    AppliesIffMatches(u, fromStepId, status);
    hide Glob, Cut, Literals;
    LiteralsCounted(t.onStatus);
    LiteralsCounted(u.onStatus);
    if !Wild(t.onStatus) && Wild(u.onStatus) {
      ExactOutranksWildcard(t.onStatus, u.onStatus, status);
    } else if Wild(t.onStatus) && !Wild(u.onStatus) {
      ExactOutranksWildcard(u.onStatus, t.onStatus, status);
    }
  }

  /**
   * The evaluation of a status.  The best transitions are those that apply and to which no transition that
   * applies is preferred, each as often as it is declared.  A single one is followed, several are an ambiguity
   * of just that many, and there is none only if nothing applies.
   */
  lemma EvaluateMeaning(ts: seq<Transition>, fromStepId: string, status: string) returns (best: seq<Transition>)
    ensures forall t :: multiset(best)[t] ==
              if Applies(t, fromStepId, status)
                 && forall u :: u in ts && Applies(u, fromStepId, status) ==> !Preferred(u.onStatus, t.onStatus)
              then multiset(ts)[t] else 0
    ensures Evaluate(ts, fromStepId, status) ==
              if |best| == 0 then Ok(None) else if |best| == 1 then Ok(best[0].toStepId) else Thrown(Ambiguous(|best|))
    ensures best == [] <==> forall t :: t in ts ==> !Applies(t, fromStepId, status)
  {
    best := Best(ts, fromStepId, status);
    BestNonempty(ts, fromStepId, status);
    forall t ensures Applies(t, fromStepId, status) <==> Matches(t, fromStepId, status) {
      AppliesIffMatches(t, fromStepId, status);
    }
    hide Specificity, Matches, Best, Applies, Preferred;
    forall t ensures multiset(best)[t] ==
              if Applies(t, fromStepId, status)
                 && forall u :: u in ts && Applies(u, fromStepId, status) ==> !Preferred(u.onStatus, t.onStatus)
              then multiset(ts)[t] else 0
    {
      BestCounts(ts, fromStepId, status, t);
      forall u | Applies(t, fromStepId, status) && Applies(u, fromStepId, status)
        ensures Preferred(u.onStatus, t.onStatus) <==> Specificity(u.onStatus) > Specificity(t.onStatus)
      {
        PreferredRanks(u, t, fromStepId, status);
      }
    }
  }

  /** If no exact transition applies, the wildcard one with the most literal characters is followed. */
  lemma MoreLiteralsWin(ts: seq<Transition>, fromStepId: string, status: string, t: Transition)
    requires Applies(t, fromStepId, status) && Wild(t.onStatus) && multiset(ts)[t] == 1
    requires forall u :: u in ts && Applies(u, fromStepId, status) && u != t ==>
               Wild(u.onStatus) && LiteralCount(u.onStatus) < LiteralCount(t.onStatus)
    ensures Evaluate(ts, fromStepId, status) == Ok(t.toStepId)
  {
    var best := EvaluateMeaning(ts, fromStepId, status);
    hide Evaluate, Applies, LiteralCount, Wild;
    assert t in multiset(ts) && t in ts;
    forall u ensures multiset(best)[u] == multiset{t}[u] {
      if u != t && u in ts && Applies(u, fromStepId, status) {
        assert Preferred(t.onStatus, u.onStatus);
      }
      assert u in ts <==> u in multiset(ts);
    }
    assert multiset(best) == multiset{t};
    assert |best| == |multiset(best)| == 1;
    assert best[0] in multiset(best);
  }
}
