/** The decoy generator of generateChoices (app.js:152-204): three plausible wrong
    (high, low) pairs around the true one, a Fisher–Yates shuffle of the four
    choices, and the position of the true one. Every Math.random draw is a
    parameter constrained to the values the source can draw. */
module Choices {

  /** A (high, low) pair in integer degrees Celsius. */
  datatype Pair = Pair(high: int, low: int)

  /** One answer button. Only the true pair is flagged (app.js:158); the decoys
      are pushed without a flag (app.js:191), so their flag is false. */
  datatype Choice = Choice(high: int, low: int, correct: bool)

  /** The draws one decoy consumes, in source order: an index into ShiftTable
      (getRandomVariation), then the high and the low jitter in [-3, 3]. */
  datatype DecoyDraw = DecoyDraw(shiftRoll: nat, highJitter: int, lowJitter: int)

  /** All draws of one generateChoices call: one DecoyDraw per decoy, then one
      swap partner per Fisher–Yates step. */
  datatype Draws = Draws(decoys: seq<DecoyDraw>, swaps: seq<nat>)

  /** The shifts of getRandomVariation (app.js:208). */
  const ShiftTable: seq<int> := [-15, -12, -10, -8, -6, -4, -2, 2, 4, 6, 8, 10, 12, 15]

  const DecoyCount: nat := 3
  const ChoiceCount: nat := DecoyCount + 1
  const MaxSpread: int := 25

  predicate ValidDecoyDraw(d: DecoyDraw) {
    d.shiftRoll < |ShiftTable| && -3 <= d.highJitter <= 3 && -3 <= d.lowJitter <= 3
  }

  /** The Fisher–Yates loop over n entries runs i = n-1 down to 1; step k (for
      i = n-1-k) draws its partner j in [0, i]. */
  predicate ValidSwaps(n: nat, swaps: seq<nat>) {
    |swaps| == (if n == 0 then 0 else n - 1)
    && forall k :: 0 <= k < |swaps| ==> swaps[k] <= n - 1 - k
  }

  predicate ValidDraws(d: Draws) {
    |d.decoys| == DecoyCount
    && (forall k :: 0 <= k < |d.decoys| ==> ValidDecoyDraw(d.decoys[k]))
    && ValidSwaps(ChoiceCount, d.swaps)
  }

  /** getRandomVariation (app.js:206-210): a shift that is never zero and at
      most 15 degrees either way. */
  function GetRandomVariation(roll: nat): (shift: int)
    requires roll < |ShiftTable|
    ensures shift != 0 && -15 <= shift <= 15
  {
    ShiftTable[roll]
  }

  /** The spread cap (app.js:183-189) on a pair with low <= high: a spread over
      MaxSpread becomes exactly MaxSpread, the excess split between lowering the
      high and raising the low, the low taking the odd degree. */
  function CapSpread(high: int, low: int): (p: Pair)
    requires low <= high
    ensures p.low <= p.high
    ensures p.high - p.low == if high - low > MaxSpread then MaxSpread else high - low
    ensures high - low <= MaxSpread ==> p == Pair(high, low)
    ensures high - low > MaxSpread ==>
      var lowered, raised := high - p.high, p.low - low;
      0 <= lowered <= raised <= lowered + 1 && lowered + raised == high - low - MaxSpread
  {
    var spread := high - low;
    if spread > MaxSpread then
      var excess := spread - MaxSpread;
      // For a positive excess, excess / 2 is Math.floor(excess / 2) and
      // (excess + 1) / 2 is Math.ceil(excess / 2).
      Pair(high - excess / 2, low + (excess + 1) / 2)
    else
      Pair(high, low)
  }

  /** One iteration of the decoy loop (app.js:166-191) on the true pair. The
      decoy is ordered, its spread is at most MaxSpread, and its midpoint stays
      within a few degrees of the shifted true midpoint. The true pair itself
      need not be ordered. */
  function Decoy(trueHigh: int, trueLow: int, d: DecoyDraw): (p: Pair)
    requires ValidDecoyDraw(d)
    ensures p.low <= p.high <= p.low + MaxSpread
    ensures -6 <= (p.high + p.low) - (trueHigh + trueLow + 2 * GetRandomVariation(d.shiftRoll)) <= 7
  {
    var shift := GetRandomVariation(d.shiftRoll);
    var high := trueHigh + shift + d.highJitter;
    var low := trueLow + shift + d.lowJitter;
    if low > high then CapSpread(low, high) else CapSpread(high, low)
  }

  /** The decoys of one round, in generation order: one per draw, each ordered
      and of spread at most MaxSpread. */
  function Decoys(truth: Pair, decoys: seq<DecoyDraw>): (vs: seq<Pair>)
    requires forall k :: 0 <= k < |decoys| ==> ValidDecoyDraw(decoys[k])
    ensures |vs| == |decoys|
    ensures forall k :: 0 <= k < |vs| ==> vs[k].low <= vs[k].high <= vs[k].low + MaxSpread
  {
    seq(|decoys|, k requires 0 <= k < |decoys| => Decoy(truth.high, truth.low, decoys[k]))
  }

  /** The decoy loop (app.js:165-192), updating `high` and `low` step by step. */
  method GenerateVariations(correctHigh: int, correctLow: int, decoys: seq<DecoyDraw>)
    returns (variations: seq<Pair>)
    requires |decoys| == DecoyCount && forall k :: 0 <= k < |decoys| ==> ValidDecoyDraw(decoys[k])
    ensures |variations| == DecoyCount
    ensures forall k :: 0 <= k < DecoyCount ==> variations[k] == Decoy(correctHigh, correctLow, decoys[k])
  {
    variations := [];
    for i := 0 to DecoyCount
      invariant |variations| == i
      invariant forall k :: 0 <= k < i ==> variations[k] == Decoy(correctHigh, correctLow, decoys[k])
    {
      var d := decoys[i];
      var tempShift := GetRandomVariation(d.shiftRoll);
      var high := correctHigh + tempShift;
      var low := correctLow + tempShift;
      high := high + d.highJitter;
      low := low + d.lowJitter;
      if low > high {
        low, high := high, low;
      }
      var spread := high - low;
      if spread > MaxSpread {
        var excess := spread - MaxSpread;
        high := high - excess / 2;
        low := low + (excess + 1) / 2;
      }
      assert Pair(high, low) == Decoy(correctHigh, correctLow, d);
      variations := variations + [Pair(high, low)];
    }
  }

  /** What generateChoices promises about its four choices: the entry at p is the
      true pair, flagged correct, and every other entry is an unflagged decoy with
      low <= high and a spread of at most MaxSpread. */
  predicate RoundChoices(s: seq<Choice>, truth: Pair, p: int) {
    0 <= p < |s| && s[p] == Choice(truth.high, truth.low, true)
    && forall k :: 0 <= k < |s| && k != p ==> !s[k].correct && s[k].low <= s[k].high <= s[k].low + MaxSpread
  }

  /** The choices before the shuffle: the true pair first, then the decoys
      (app.js:157-159 and 194). */
  function Unshuffled(truth: Pair, variations: seq<Pair>): (s: seq<Choice>)
    ensures |s| == |variations| + 1
    ensures (forall k :: 0 <= k < |variations| ==> variations[k].low <= variations[k].high <= variations[k].low + MaxSpread)
            ==> RoundChoices(s, truth, 0)
  {
    [Choice(truth.high, truth.low, true)]
      + seq(|variations|, k requires 0 <= k < |variations| => Choice(variations[k].high, variations[k].low, false))
  }

  /** Exchanging two entries, as `[choices[i], choices[j]] = [choices[j], choices[i]]`. */
  function Swap<T>(s: seq<T>, i: nat, j: nat): (r: seq<T>)
    requires i < |s| && j < |s|
    ensures |r| == |s| && r[i] == s[j] && r[j] == s[i]
    ensures forall k :: 0 <= k < |s| && k != i && k != j ==> r[k] == s[k]
  {
    s[i := s[j]][j := s[i]]
  }

  /** The first m steps of the Fisher–Yates loop (app.js:197-200): step k swaps
      position |s|-1-k with swaps[k]. */
  function ShuffleSteps<T>(s: seq<T>, swaps: seq<nat>, m: nat): (r: seq<T>)
    requires ValidSwaps(|s|, swaps) && m <= |swaps|
    ensures |r| == |s|
  {
    if m == 0 then s
    else Swap(ShuffleSteps(s, swaps, m - 1), |s| - m, swaps[m - 1])
  }

  /** The whole Fisher–Yates loop: a permutation of its input. */
  function Shuffled<T>(s: seq<T>, swaps: seq<nat>): (r: seq<T>)
    requires ValidSwaps(|s|, swaps)
    ensures |r| == |s| && multiset(r) == multiset(s)
  {
    ShuffleStepsPermutes(s, swaps, |swaps|);
    ShuffleSteps(s, swaps, |swaps|)
  }

  /** Where the entry at p ends up after the first m shuffle steps. */
  function TrackSteps(n: nat, swaps: seq<nat>, m: nat, p: nat): (q: nat)
    requires ValidSwaps(n, swaps) && m <= |swaps| && p < n
    ensures q < n
  {
    if m == 0 then p
    else
      var q := TrackSteps(n, swaps, m - 1, p);
      var i, j := n - m, swaps[m - 1];
      if q == i then j else if q == j then i else q
  }

  /** The final position of the true pair, which generateChoices records in
      correctAnswer. */
  function CorrectPosition(swaps: seq<nat>): (p: nat)
    requires ValidSwaps(ChoiceCount, swaps)
    ensures p < ChoiceCount
  {
    TrackSteps(ChoiceCount, swaps, |swaps|, 0)
  }

  /** The whole result of generateChoices for a true pair and its draws: four
      choices, a permutation of the true pair and the three decoys. */
  function Generated(truth: Pair, draws: Draws): (r: seq<Choice>)
    requires ValidDraws(draws)
    ensures |r| == ChoiceCount
    ensures multiset(r) == multiset(Unshuffled(truth, Decoys(truth, draws.decoys)))
  {
    Shuffled(Unshuffled(truth, Decoys(truth, draws.decoys)), draws.swaps)
  }

  /** Every prefix of the shuffle is a permutation of its input. */
  lemma {:induction false} ShuffleStepsPermutes<T>(s: seq<T>, swaps: seq<nat>, m: nat)
    requires ValidSwaps(|s|, swaps) && m <= |swaps|
    ensures multiset(ShuffleSteps(s, swaps, m)) == multiset(s)
  {
    if m > 0 {
      var before := ShuffleSteps(s, swaps, m - 1);
      var i, j := |s| - m, swaps[m - 1];
      assert ShuffleSteps(s, swaps, m) == Swap(before, i, j);
      ShuffleStepsPermutes(s, swaps, m - 1);
      SwapPermutes(before, i, j);
    }
  }

  lemma SwapPermutes<T>(s: seq<T>, i: nat, j: nat)
    requires i < |s| && j < |s|
    ensures multiset(Swap(s, i, j)) == multiset(s)
  {
  }

  /** The shuffle moves the true pair to the tracked position and keeps every
      decoy a decoy. */
  lemma {:induction false} ShuffleStepsTrack(s: seq<Choice>, swaps: seq<nat>, m: nat, truth: Pair, p: nat)
    requires ValidSwaps(|s|, swaps) && m <= |swaps| && RoundChoices(s, truth, p)
    ensures RoundChoices(ShuffleSteps(s, swaps, m), truth, TrackSteps(|s|, swaps, m, p))
  {
    if m > 0 {
      ShuffleStepsTrack(s, swaps, m - 1, truth, p);
    }
  }

  /** After generateChoices there are four choices, a permutation of the true
      pair and the three decoys; the true pair sits unchanged at CorrectPosition,
      and every other choice is an unflagged, ordered decoy of spread at most 25. */
  lemma GeneratedIsRoundChoices(truth: Pair, draws: Draws)
    requires ValidDraws(draws)
    ensures |Generated(truth, draws)| == ChoiceCount
    ensures multiset(Generated(truth, draws)) == multiset(Unshuffled(truth, Decoys(truth, draws.decoys)))
    ensures RoundChoices(Generated(truth, draws), truth, CorrectPosition(draws.swaps))
  {
    var initial := Unshuffled(truth, Decoys(truth, draws.decoys));
    ShuffleStepsPermutes(initial, draws.swaps, |draws.swaps|);
    ShuffleStepsTrack(initial, draws.swaps, |draws.swaps|, truth, 0);
  }

  /** Exactly one of the generated choices is flagged correct. */
  lemma ExactlyOneCorrect(truth: Pair, draws: Draws)
    requires ValidDraws(draws)
    ensures |set k | 0 <= k < |Generated(truth, draws)| && Generated(truth, draws)[k].correct| == 1
  {
    var s := Generated(truth, draws);
    var p := CorrectPosition(draws.swaps);
    GeneratedIsRoundChoices(truth, draws);
    assert (set k | 0 <= k < |s| && s[k].correct) == {p};
  }

  /** A shift of at least 4 degrees keeps a decoy away from the true pair; with a
      shift of 2 the jitter can bring it back onto the true pair exactly. */
  lemma DecoyDiffersForLargeShift(trueHigh: int, trueLow: int, d: DecoyDraw)
    requires ValidDecoyDraw(d)
    requires GetRandomVariation(d.shiftRoll) >= 4 || GetRandomVariation(d.shiftRoll) <= -4
    ensures Decoy(trueHigh, trueLow, d) != Pair(trueHigh, trueLow)
  {
  }

  /** The duplicate the source does not guard against: true pair (20, 10),
      shift +2, both jitters -2. */
  lemma DecoyCanEqualTruth()
    ensures ValidDecoyDraw(DecoyDraw(7, -2, -2)) && Decoy(20, 10, DecoyDraw(7, -2, -2)) == Pair(20, 10)
  {
  }

  /** Capping two raw spreads above a low of 6: 31 loses 3 at each end, and 30
      loses 2 at the high end and 3 at the low end. */
  lemma CapSpreadExample()
    ensures CapSpread(37, 6) == Pair(34, 9)
    ensures CapSpread(36, 6) == Pair(34, 9)
  {
  }

  /** The in-place Fisher–Yates shuffle (app.js:197-200). */
  method Shuffle<T>(a: array<T>, swaps: seq<nat>)
    requires ValidSwaps(a.Length, swaps)
    modifies a
    ensures a[..] == Shuffled(old(a[..]), swaps)
    ensures multiset(a[..]) == multiset(old(a[..]))
  {
    var i := a.Length - 1;
    while i > 0
      invariant -1 <= i < a.Length && (a.Length > 0 ==> 0 <= i)
      invariant a[..] == ShuffleSteps(old(a[..]), swaps, a.Length - 1 - i)
    {
      var j := swaps[a.Length - 1 - i];
      a[i], a[j] := a[j], a[i];
      i := i - 1;
    }
    ShuffleStepsPermutes(old(a[..]), swaps, |swaps|);
  }

  /** `choices.findIndex(choice => choice.correct)` (app.js:202): the first
      flagged position, or -1 when there is none. */
  method FindCorrect(s: seq<Choice>) returns (index: int)
    ensures -1 <= index < |s|
    ensures index == -1 <==> forall k :: 0 <= k < |s| ==> !s[k].correct
    ensures 0 <= index ==> s[index].correct && forall k :: 0 <= k < index ==> !s[k].correct
  {
    index := 0;
    while index < |s|
      invariant 0 <= index <= |s|
      invariant forall k :: 0 <= k < index ==> !s[k].correct
    {
      if s[index].correct {
        return;
      }
      index := index + 1;
    }
    index := -1;
  }
}
