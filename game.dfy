/** The round controller: the WeatherGuessr object's state (app.js:1-20) and the
    methods that move it: startNewRound, selectChoice, updateStats,
    updateStatsDisplay, resetGame and toggleTemperatureUnit. */
module Game {
  import opened JsMath
  import opened Display
  import opened Stats
  import opened Choices

  datatype Option<T> = None | Some(value: T)

  /** `gameState`: 'loading', 'waiting' or 'answered'. */
  datatype GameState = Loading | Waiting | Answered

  /** How the awaited weather fetch of startNewRound ends (app.js:84-98). The
      image fetch never fails: it falls back to a placeholder. */
  datatype Fetch = Fetched(weather: Pair) | FetchFailed

  /** What a click shows: nothing when it is ignored, otherwise the verdict and
      the accuracy percentage written by updateStatsDisplay. */
  datatype Feedback = Ignored | Judged(isCorrect: bool, accuracy: int)

  class WeatherGuessr {
    var gameState: GameState
    var gameStats: GameStats
    /** The true pair of the current round; null until a fetch succeeds. */
    var currentWeather: Option<Pair>
    /** The index recorded by generateChoices; null until then. */
    var correctAnswer: Option<int>
    /** The choices last handed to renderChoices, in screen order. */
    var choices: seq<Choice>

    /** The object invariant: consistent counters; a round open for answers has
        its choices; and recorded choices have the true pair at correctAnswer
        and only ordered, capped, unflagged decoys elsewhere. */
    ghost predicate Valid()
      reads this
    {
      Consistent(gameStats)
      && (gameState == Waiting ==> correctAnswer.Some?)
      && (correctAnswer.Some? ==>
            currentWeather.Some? && |choices| == ChoiceCount
            && RoundChoices(choices, currentWeather.value, correctAnswer.value))
    }

    /** The constructor sets 'waiting' and then calls startNewRound, whose
        synchronous part sets 'loading' before the first await. */
    constructor ()
      ensures Valid()
      ensures gameStats == NewGame(false) && gameState == Loading
      ensures currentWeather == None && correctAnswer == None && choices == []
    {
      gameStats := GameStats(1, 0, 0, false);
      gameState := Waiting;
      correctAnswer := None;
      currentWeather := None;
      choices := [];
      // startNewRound, up to its first await
      gameState := Loading;
    }

    /** The part of startNewRound before the await (app.js:73-74). */
    method StartRound()
      requires Valid()
      modifies this`gameState
      ensures Valid() && gameState == Loading
    {
      gameState := Loading;
    }

    /** The part of startNewRound after the await (app.js:89-98). On success the
        weather is stored, the choices generated and answers accepted; on failure
        the error is shown and nothing changes, so a round that was loading stays
        loading. The source does not check the state here. */
    method FinishRound(fetch: Fetch, draws: Draws)
      requires Valid() && ValidDraws(draws)
      modifies this
      ensures Valid()
      ensures fetch.FetchFailed? ==> unchanged(this)
      ensures fetch.Fetched? ==>
        gameState == Waiting && gameStats == old(gameStats)
        && currentWeather == Some(fetch.weather)
        && choices == Generated(fetch.weather, draws)
        && correctAnswer == Some(CorrectPosition(draws.swaps))
    {
      if fetch.Fetched? {
        currentWeather := Some(fetch.weather);
        GenerateChoices(draws);
        gameState := Waiting;
      }
    }

    /** generateChoices (app.js:152-204): builds the decoys, shuffles the four
        choices in place, and records where the true pair landed. */
    method GenerateChoices(draws: Draws)
      requires currentWeather.Some? && ValidDraws(draws)
      modifies this`choices, this`correctAnswer
      ensures choices == Generated(currentWeather.value, draws)
      ensures correctAnswer == Some(CorrectPosition(draws.swaps))
      ensures |choices| == ChoiceCount && RoundChoices(choices, currentWeather.value, correctAnswer.value)
    {
      var truth := currentWeather.value;
      var variations := GenerateVariations(truth.high, truth.low, draws.decoys);
      assert variations == Decoys(truth, draws.decoys);
      var initial := Unshuffled(truth, variations);
      var a := new Choice[|initial|](k requires 0 <= k < |initial| => initial[k]);
      assert a[..] == initial;
      Shuffle(a, draws.swaps);
      GeneratedIsRoundChoices(truth, draws);
      var index := FindCorrect(a[..]);
      correctAnswer := Some(index);
      choices := a[..];
    }

    /** selectChoice (app.js:236-256). A click is ignored unless answers are
        accepted; otherwise the round is answered and scored. The verdict is
        the recorded index, which is the one position flagged correct: a decoy
        that happens to equal the true pair is still wrong. */
    method SelectChoice(selectedIndex: nat) returns (feedback: Feedback)
      requires Valid()
      modifies this
      ensures Valid()
      ensures old(gameState) != Waiting ==> feedback == Ignored && unchanged(this)
      ensures old(gameState) == Waiting ==>
        var isCorrect := old(correctAnswer) == Some(selectedIndex);
        gameState == Answered
        && gameStats == Scored(old(gameStats), isCorrect)
        && feedback == Judged(isCorrect, DisplayAccuracy(gameStats.correct, Completed(gameStats)))
        && correctAnswer == old(correctAnswer) && choices == old(choices)
        && currentWeather == old(currentWeather)
        && (selectedIndex < |choices| ==> (isCorrect <==> choices[selectedIndex].correct))
        && 0 <= feedback.accuracy <= 100
    {
      if gameState != Waiting {
        return Ignored;
      }
      gameState := Answered;
      var isCorrect := correctAnswer == Some(selectedIndex);
      var accuracy := UpdateStats(isCorrect);
      AccuracyAgrees(gameStats);
      feedback := Judged(isCorrect, accuracy);
    }

    /** updateStats (app.js:258-267) followed by updateStatsDisplay. */
    method UpdateStats(isCorrect: bool) returns (accuracy: int)
      requires Consistent(gameStats)
      modifies this`gameStats
      ensures gameStats == Scored(old(gameStats), isCorrect)
      ensures accuracy == DisplayAccuracy(gameStats.correct, Completed(gameStats))
    {
      if isCorrect {
        gameStats := gameStats.(correct := gameStats.correct + 1);
        gameStats := gameStats.(streak := gameStats.streak + 1);
      } else {
        gameStats := gameStats.(streak := 0);
      }
      accuracy := UpdateStatsDisplay();
    }

    /** The counter part of updateStatsDisplay (app.js:269-281): the round is
        incremented and the accuracy over the completed rounds is computed. */
    method UpdateStatsDisplay() returns (accuracy: int)
      requires gameStats.round >= 1
      modifies this`gameStats
      ensures gameStats == old(gameStats).(round := old(gameStats.round) + 1)
      ensures accuracy == DisplayAccuracy(gameStats.correct, Completed(gameStats))
      ensures 0 < Completed(gameStats)
    {
      gameStats := gameStats.(round := gameStats.round + 1);
      accuracy := if gameStats.correct > 0 then JsRound(100 * gameStats.correct, gameStats.round - 1) else 0;
    }

    /** resetGame (app.js:296-312): fresh counters with the unit kept, then a
        new round is started. */
    method ResetGame()
      requires Valid()
      modifies this`gameStats, this`gameState
      ensures Valid()
      ensures gameStats == NewGame(old(gameStats.isMetric)) && gameState == Loading
    {
      gameStats := GameStats(1, 0, 0, gameStats.isMetric);
      StartRound();
    }

    /** toggleTemperatureUnit (app.js:334-340): the unit flips and the game is
        reset with the new unit. */
    method ToggleTemperatureUnit()
      requires Valid()
      modifies this`gameStats, this`gameState
      ensures Valid()
      ensures gameStats == NewGame(!old(gameStats.isMetric)) && gameState == Loading
    {
      gameStats := gameStats.(isMetric := !gameStats.isMetric);
      ResetGame();
    }

    /** formatTemperature (app.js:228-234): the Celsius value unchanged in metric
        mode, otherwise Math.round(temp * 9/5 + 32) in Fahrenheit. */
    function FormatTemperature(temp: int): (r: Reading)
      reads this
      ensures gameStats.isMetric ==> r == Reading(temp, Celsius)
      ensures !gameStats.isMetric ==> r == Reading(JsRound(9 * temp + 160, 5), Fahrenheit)
    {
      FahrenheitIsJsRound(temp);
      if gameStats.isMetric then Reading(temp, Celsius) else Reading(ToFahrenheit(temp), Fahrenheit)
    }
  }
}
