/** The session counters (`gameStats`, app.js:5-10), how one answered round
    changes them (updateStats and updateStatsDisplay, app.js:258-281), and the
    accuracy figure computed from them (app.js:276-277 and 430-432). */
module Stats {
  import opened JsMath

  /** `round` is the number of the round being played, so round - 1 rounds are
      complete; `isMetric` selects the unit shown on the buttons. */
  datatype GameStats = GameStats(round: int, correct: int, streak: int, isMetric: bool)

  function Completed(s: GameStats): int {
    s.round - 1
  }

  /** What the counters always satisfy: the streak is a run of correct answers,
      and there are no more correct answers than completed rounds. */
  predicate Consistent(s: GameStats) {
    1 <= s.round && 0 <= s.streak <= s.correct <= Completed(s)
  }

  /** The counters of a fresh game (the constructor and resetGame). */
  function NewGame(isMetric: bool): (s: GameStats)
    ensures Consistent(s) && s.round == 1 && s.isMetric == isMetric
  {
    GameStats(1, 0, 0, isMetric)
  }

  /** The counters after one answered round: updateStats followed by the round
      increment of updateStatsDisplay. */
  function Scored(s: GameStats, isCorrect: bool): (r: GameStats)
    ensures r.round == s.round + 1 && r.isMetric == s.isMetric
    ensures Consistent(s) ==> Consistent(r) && (r.streak == 0 <==> !isCorrect)
  {
    var r := if isCorrect then s.(correct := s.correct + 1, streak := s.streak + 1) else s.(streak := 0);
    r.(round := r.round + 1)
  }

  /** The counters after answering rounds with the given outcomes, in order: one
      round more per answer, and the same unit. */
  function Play(s: GameStats, outcomes: seq<bool>): (r: GameStats)
    ensures r.round == s.round + |outcomes| && r.isMetric == s.isMetric
    decreases |outcomes|
  {
    if outcomes == [] then s
    else Scored(Play(s, outcomes[..|outcomes| - 1]), outcomes[|outcomes| - 1])
  }

  /** The number of correct answers at the end of the outcomes, uninterrupted. */
  function TrailingRun(outcomes: seq<bool>): (n: nat)
    ensures n <= |outcomes|
    ensures forall k :: |outcomes| - n <= k < |outcomes| ==> outcomes[k]
    ensures n < |outcomes| ==> !outcomes[|outcomes| - 1 - n]
  {
    if outcomes == [] || !outcomes[|outcomes| - 1] then 0
    else 1 + TrailingRun(outcomes[..|outcomes| - 1])
  }

  /** From a fresh game, `round` counts the rounds played plus one, `correct`
      counts the correct answers, and `streak` is the final run of correct
      answers; the unit never changes. */
  lemma {:induction false} PlayFromNewGame(isMetric: bool, outcomes: seq<bool>)
    ensures Play(NewGame(isMetric), outcomes)
         == GameStats(1 + |outcomes|, multiset(outcomes)[true], TrailingRun(outcomes), isMetric)
  {
    if outcomes != [] {
      var n := |outcomes|;
      var init := outcomes[..n - 1];
      PlayFromNewGame(isMetric, init);
      assert outcomes == init + [outcomes[n - 1]];
      assert multiset(outcomes) == multiset(init) + multiset{outcomes[n - 1]};
    }
  }

  /** Every reachable counter state is consistent. */
  lemma {:induction false} PlayKeepsConsistent(s: GameStats, outcomes: seq<bool>)
    requires Consistent(s)
    ensures Consistent(Play(s, outcomes)) && Play(s, outcomes).isMetric == s.isMetric
    decreases |outcomes|
  {
    if outcomes != [] {
      PlayKeepsConsistent(s, outcomes[..|outcomes| - 1]);
    }
  }

  /** Scoring from round 6 with 5 correct and a streak of 3, both ways. */
  lemma ScoredExample(isMetric: bool)
    ensures Scored(GameStats(6, 5, 3, isMetric), true) == GameStats(7, 6, 4, isMetric)
    ensures Scored(GameStats(6, 5, 3, isMetric), false) == GameStats(7, 5, 0, isMetric)
  {
  }

  /** The accuracy shown by updateStatsDisplay (app.js:276-277): 0 while no
      answer is correct, otherwise Math.round(correct / completed * 100). */
  function DisplayAccuracy(correct: int, completed: int): (percent: int)
    requires correct > 0 ==> completed > 0
    ensures correct <= 0 ==> percent == 0
    ensures correct > 0 ==>
      2 * completed * percent - completed <= 200 * correct < 2 * completed * percent + completed
  {
    if correct > 0 then JsRound(100 * correct, completed) else 0
  }

  /** The accuracy put in the share text by shareStreak (app.js:430-432): the same
      rounding, but guarded by "some round is complete" instead. */
  function ShareAccuracy(correct: int, completed: int): (percent: int)
    ensures completed <= 0 ==> percent == 0
    ensures completed > 0 ==>
      2 * completed * percent - completed <= 200 * correct < 2 * completed * percent + completed
  {
    if completed > 0 then JsRound(100 * correct, completed) else 0
  }

  /** On consistent counters the two guards agree, and the figure is a percentage. */
  lemma {:induction false} AccuracyAgrees(s: GameStats)
    requires Consistent(s)
    ensures DisplayAccuracy(s.correct, Completed(s)) == ShareAccuracy(s.correct, Completed(s))
    ensures 0 <= DisplayAccuracy(s.correct, Completed(s)) <= 100
  {
    var c, n := s.correct, Completed(s);
    if n > 0 {
      var p := JsRound(100 * c, n);
      if c == 0 {
        JsRoundUnique(0, n, 0);
      } else {
        // 2 * n * p - n <= 200 * c <= 200 * n, so p <= 100
        var m := 2 * n;
        assert m * p - n <= 200 * c <= 100 * m;
        assert m * (p - 100) == m * p - 100 * m;
        ProductBelowFactor(m, p - 100);
        // 200 * c < 2 * n * p + n with c >= 1, so p >= 0
        assert m * (0 - p) == 0 - m * p;
        ProductBelowFactor(m, 0 - p);
      }
    }
  }

  /** Three correct out of four completed rounds shows 75%. */
  lemma AccuracyExample()
    ensures DisplayAccuracy(3, 4) == 75 && DisplayAccuracy(2, 3) == 67 && DisplayAccuracy(1, 8) == 13
  {
  }
}
