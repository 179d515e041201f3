/**
 * The narrative mini-game (`Scripts/spel.js`): a linear sequence of screens that each rewrite
 * the `.game` element. The model keeps the current screen, the `started`, `cta` and
 * `game-victory` classes, the stored initial markup, and whether the container still
 * carries its one-shot click listener that starts the game.
 */
module NarrativeGame {
  import JsText

  datatype Weapon = Sword | Spear | Bow

  /** The screens the `.game` element shows. */
  datatype Screen =
    | Intro(html: string)   // the page's own markup (or the restored copy of it)
    | DiceReady             // "Kasta tärningen" with the die shown
    | DiceResult(roll: int) // after the die settles
    | Deeper                // "Nästa prövning." with the "Gå djupare.." button
    | Challenger            // the three weapons
    | NotWorthy             // wrong weapon or wrong quiz answer
    | Quiz
    | AfterQuiz
    | FindIt(correct: int)  // five targets; the correct index was drawn from 0..11
    | SecondChance
    | FindItSuccess
    | LastStep
    | Final(health: int)    // the hidden enemy and its health
    | Victory

  /** The first trial is passed with a roll of four or more. */
  predicate IsWorthy(roll: int) {
    roll >= 4
  }

  /** Only the spear defeats the challenger. */
  function WeaponOutcome(w: Weapon): (s: Screen)
    ensures s == Quiz <==> w == Spear
    ensures s != Quiz ==> s == NotWorthy
  {
    if w == Spear then Quiz else NotWorthy
  }

  /** The quiz answer check: lowercase, then trim, then compare with "kido". */
  predicate IsCorrectAnswer(answer: string) {
    JsText.Trim(JsText.Lower(answer)) == "kido"
  }

  /** Case and surrounding whitespace do not matter to the quiz. */
  lemma AnswerIgnoresCaseAndPadding(answer: string)
    ensures IsCorrectAnswer(answer) <==> IsCorrectAnswer(JsText.Lower(answer))
    ensures IsCorrectAnswer(answer) <==> IsCorrectAnswer(JsText.Trim(answer))
  {
    JsText.LowerIdempotent(answer);
    JsText.LowerTrimCommute(answer);
    JsText.TrimIdempotent(JsText.Lower(answer));
  }

  /** Clicking target `i` of "Find it": success only on the correct index. */
  function TargetOutcome(correct: int, i: int): (s: Screen)
    ensures s == FindItSuccess <==> i == correct
    ensures s != FindItSuccess ==> s == SecondChance
  {
    if i == correct then FindItSuccess else SecondChance
  }

  /** The number of targets `findit` creates, and the range the correct index is drawn from. */
  const TargetCount := 5
  const IndexRange := 12

  /**
   * Only targets 0..4 exist, so "Find it" can be won exactly when the drawn index is below 5;
   * with the index uniform over 0..11, seven of twelve draws leave no winning target.
   */
  lemma FindItWinnableIff(correct: int)
    requires 0 <= correct < IndexRange
    ensures (exists i :: 0 <= i < TargetCount && TargetOutcome(correct, i) == FindItSuccess) <==> correct < TargetCount
  {
    if correct < TargetCount {
      assert TargetOutcome(correct, correct) == FindItSuccess;
    }
  }

  /** The enemy's starting health. */
  const MaxHealth := 10

  /** One click on the hidden enemy. */
  function AfterHit(s: Screen): (r: Screen)
    requires s.Final?
    ensures r.Victory? <==> s.health - 1 <= 0
    ensures r.Final? ==> r.health == s.health - 1
  {
    if s.health - 1 <= 0 then Victory else Final(s.health - 1)
  }

  /** The screen after `k` clicks, starting from `s`; clicks after victory have no target. */
  function Hits(s: Screen, k: nat): Screen
    requires s.Final? || s.Victory?
    decreases k
  {
    if k == 0 || s.Victory? then s else Hits(AfterHit(s), k - 1)
  }

  /** Starting at full health, the victory screen appears exactly on the tenth click. */
  lemma {:induction false} VictoryOnTenthHit(health: int, k: nat)
    requires 0 < health <= MaxHealth
    ensures k < health ==> Hits(Final(health), k) == Final(health - k)
    ensures k >= health ==> Hits(Final(health), k) == Victory
  {
    if k > 0 {
      if health == 1 {
        assert Hits(Final(health), k) == Hits(Victory, k - 1);
      } else {
        VictoryOnTenthHit(health - 1, k - 1);
      }
    }
  }

  class Game {
    /** The page's markup of the game element when the page loads. */
    const pageHtml: string
    var screen: Screen
    var started: bool
    var cta: bool
    var victory: bool
    /** `dataset.initialMarkup`; the empty string is an absent (falsy) value. */
    var initialMarkup: string
    /** The container's `{ once: true }` click listener that calls `startGame`. */
    var listening: bool

    /**
     * `started` is on exactly off the intro screen, and only once the starting listener has
     * fired; a stored markup is the page's markup.
     */
    predicate Valid()
      reads this
    {
      && (started <==> !screen.Intro?)
      && (started ==> !listening)
      && (initialMarkup != "" ==> initialMarkup == pageHtml)
      && (screen.Intro? ==> screen.html == pageHtml)
    }

    /** `initGame`: store the markup and attach the one-shot listener. */
    constructor(pageHtml: string, pageCta: bool)
      ensures Valid()
      ensures this.pageHtml == pageHtml && screen == Intro(pageHtml)
      ensures initialMarkup == pageHtml && listening && !started && cta == pageCta && !victory
    {
      this.pageHtml := pageHtml;
      screen := Intro(pageHtml);
      started := false;
      cta := pageCta;
      victory := false;
      initialMarkup := pageHtml;
      listening := true;
    }

    /**
     * `startGame`: a no-op once started; otherwise show the die, recording the markup if unset.
     * It runs only as the container's one-shot listener, which is detached by then.
     */
    method StartGame()
      requires Valid() && !listening
      modifies this
      ensures Valid()
      ensures old(started) ==> screen == old(screen) && cta == old(cta) && initialMarkup == old(initialMarkup)
      ensures !old(started) ==> screen == DiceReady && started && !cta
      ensures initialMarkup == (if old(initialMarkup) == "" && !old(started) then pageHtml else old(initialMarkup))
      ensures victory == old(victory) && listening == old(listening)
    {
      if started {
        return;
      }
      if initialMarkup == "" {
        initialMarkup := screen.html;
      }
      screen := DiceReady;
      cta := false;
      started := true;
    }

    /** A click that reaches the container: runs `startGame` once per attached listener. */
    method ContainerClick()
      requires Valid()
      modifies this
      ensures Valid()
      ensures !old(listening) ==> screen == old(screen) && started == old(started) && cta == old(cta)
      ensures !listening
      ensures old(listening) && !old(started) ==> screen == DiceReady && started && !cta
      ensures old(started) ==> screen == old(screen) && started && cta == old(cta)
      ensures initialMarkup == (if old(listening) && !old(started) && old(initialMarkup) == "" then pageHtml else old(initialMarkup))
      ensures victory == old(victory)
    {
      if listening {
        listening := false;
        StartGame();
      }
    }

    /** The die is clicked; `roll` is the drawn number in 1..6. */
    method RollDice(roll: int)
      requires Valid() && 1 <= roll <= 6
      modifies this
      ensures Valid()
      ensures old(screen) == DiceReady ==> screen == DiceResult(roll)
      ensures old(screen) != DiceReady ==> screen == old(screen)
      ensures started == old(started) && cta == old(cta) && initialMarkup == old(initialMarkup)
      ensures listening == old(listening) && victory == old(victory)
    {
      if screen == DiceReady {
        screen := DiceResult(roll);
      }
    }

    /** The continue button, shown only after a worthy roll. */
    method ContinueAfterRoll()
      requires Valid()
      modifies this
      ensures Valid()
      ensures old(screen).DiceResult? && IsWorthy(old(screen).roll) ==> screen == Deeper
      ensures !(old(screen).DiceResult? && IsWorthy(old(screen).roll)) ==> screen == old(screen)
      ensures started == old(started) && cta == old(cta) && initialMarkup == old(initialMarkup)
      ensures listening == old(listening) && victory == old(victory)
    {
      if screen.DiceResult? && IsWorthy(screen.roll) {
        screen := Deeper;
      }
    }

    /** "Gå djupare..": meet the challenger. */
    method GoDeeper()
      requires Valid()
      modifies this
      ensures Valid()
      ensures old(screen) == Deeper ==> screen == Challenger
      ensures old(screen) != Deeper ==> screen == old(screen)
      ensures started == old(started) && cta == old(cta) && initialMarkup == old(initialMarkup)
      ensures listening == old(listening) && victory == old(victory)
    {
      if screen == Deeper {
        screen := Challenger;
      }
    }

    /** A weapon is chosen: the spear leads to the quiz, sword and bow to the not-worthy screen. */
    method ChooseWeapon(w: Weapon)
      requires Valid()
      modifies this
      ensures Valid()
      ensures old(screen) == Challenger ==> screen == WeaponOutcome(w)
      ensures old(screen) != Challenger ==> screen == old(screen)
      ensures started == old(started) && cta == old(cta) && initialMarkup == old(initialMarkup)
      ensures listening == old(listening) && victory == old(victory)
    {
      if screen == Challenger {
        screen := WeaponOutcome(w);
      }
    }

    /** The quiz's submit button (or Enter in its field). */
    method SubmitAnswer(answer: string)
      requires Valid()
      modifies this
      ensures Valid()
      ensures old(screen) == Quiz ==> (screen == AfterQuiz <==> IsCorrectAnswer(answer))
      ensures old(screen) == Quiz && !IsCorrectAnswer(answer) ==> screen == NotWorthy
      ensures old(screen) != Quiz ==> screen == old(screen)
      ensures started == old(started) && cta == old(cta) && initialMarkup == old(initialMarkup)
      ensures listening == old(listening) && victory == old(victory)
    {
      if screen == Quiz {
        screen := if IsCorrectAnswer(answer) then AfterQuiz else NotWorthy;
      }
    }

    /**
     * `findit`, from the continue button after the quiz or the retry button after a miss;
     * `correct` is the drawn index in 0..11.
     */
    method StartFindIt(correct: int)
      requires Valid() && 0 <= correct < IndexRange
      modifies this
      ensures Valid()
      ensures old(screen) in {AfterQuiz, SecondChance} ==> screen == FindIt(correct)
      ensures old(screen) !in {AfterQuiz, SecondChance} ==> screen == old(screen)
      ensures started == old(started) && cta == old(cta) && initialMarkup == old(initialMarkup)
      ensures listening == old(listening) && victory == old(victory)
    {
      if screen == AfterQuiz || screen == SecondChance {
        screen := FindIt(correct);
      }
    }

    /** Target `i` of the five is clicked. */
    method ClickTarget(i: int)
      requires Valid()
      modifies this
      ensures Valid()
      ensures old(screen).FindIt? && 0 <= i < TargetCount ==> screen == TargetOutcome(old(screen).correct, i)
      ensures !(old(screen).FindIt? && 0 <= i < TargetCount) ==> screen == old(screen)
      ensures started == old(started) && cta == old(cta) && initialMarkup == old(initialMarkup)
      ensures listening == old(listening) && victory == old(victory)
    {
      if screen.FindIt? && 0 <= i < TargetCount {
        screen := TargetOutcome(screen.correct, i);
      }
    }

    /** "Nästa utmaning" after finding the target. */
    method NextChallenge()
      requires Valid()
      modifies this
      ensures Valid()
      ensures old(screen) == FindItSuccess ==> screen == LastStep
      ensures old(screen) != FindItSuccess ==> screen == old(screen)
      ensures started == old(started) && cta == old(cta) && initialMarkup == old(initialMarkup)
      ensures listening == old(listening) && victory == old(victory)
    {
      if screen == FindItSuccess {
        screen := LastStep;
      }
    }

    /** "Bevisa din värdighet": the final challenge starts with the enemy at full health. */
    method StartFinalChallenge()
      requires Valid()
      modifies this
      ensures Valid()
      ensures old(screen) == LastStep ==> screen == Final(MaxHealth)
      ensures old(screen) != LastStep ==> screen == old(screen)
      ensures started == old(started) && cta == old(cta) && initialMarkup == old(initialMarkup)
      ensures listening == old(listening) && victory == old(victory)
    {
      if screen == LastStep {
        screen := Final(MaxHealth);
      }
    }

    /** A click on the hidden enemy; at health 0 the victory screen with `cta` and `game-victory`. */
    method HitEnemy()
      requires Valid()
      modifies this
      ensures Valid()
      ensures old(screen).Final? ==> screen == AfterHit(old(screen))
      ensures old(screen).Final? && screen.Victory? ==> cta && victory
      ensures !(old(screen).Final? && screen.Victory?) ==> cta == old(cta) && victory == old(victory)
      ensures !old(screen).Final? ==> screen == old(screen)
      ensures started == old(started) && initialMarkup == old(initialMarkup) && listening == old(listening)
    {
      if screen.Final? {
        screen := AfterHit(screen);
        if screen.Victory? {
          cta := true;
          victory := true;
        }
      }
    }

    /**
     * `resetGame`: without a stored markup nothing happens; otherwise the intro markup comes
     * back, `started` goes, `cta` comes, and the starting listener is attached again.
     */
    method ResetGame()
      requires Valid()
      modifies this
      ensures Valid()
      ensures old(initialMarkup) == "" ==> screen == old(screen) && started == old(started) && cta == old(cta) && listening == old(listening)
      ensures old(initialMarkup) != "" ==> screen == Intro(pageHtml) && !started && cta && listening
      ensures initialMarkup == old(initialMarkup) && victory == old(victory)
    {
      if initialMarkup == "" {
        return;
      }
      screen := Intro(initialMarkup);
      started := false;
      cta := true;
      listening := true;
    }

    /** The screens that carry a retry or give-up button calling `resetGame`. */
    static predicate HasRetryButton(s: Screen) {
      (s.DiceResult? && !IsWorthy(s.roll)) || s == NotWorthy || s == SecondChance
    }

    /**
     * A retry or give-up click: `resetGame` re-attaches the container's listener, and the same
     * click then bubbles up to the container, so the game starts again at once.
     */
    method Retry()
      requires Valid()
      modifies this
      ensures Valid()
      ensures HasRetryButton(old(screen)) && old(initialMarkup) != "" ==> screen == DiceReady && started && !cta && !listening
      ensures HasRetryButton(old(screen)) && old(initialMarkup) == "" ==> screen == old(screen) && !listening
      ensures !HasRetryButton(old(screen)) ==> screen == old(screen) && listening == old(listening)
      ensures started == (screen != old(screen) || old(started))
      ensures initialMarkup == old(initialMarkup) && victory == old(victory)
    {
      if HasRetryButton(screen) {
        ResetGame();
        ContainerClick();
      }
    }
  }

  /**
   * The whole game can be won: from the page's markup, a roll of 4..6, the spear, a correct
   * quiz answer and a drawn index below 5 lead to the victory screen.
   */
  method PlayToVictory(pageHtml: string, roll: int, answer: string, correct: int) returns (g: Game)
    requires 4 <= roll <= 6 && IsCorrectAnswer(answer) && 0 <= correct < TargetCount
    ensures g.Valid() && g.screen == Victory && g.started && g.cta && g.victory
  {
    g := new Game(pageHtml, true);
    g.ContainerClick();
    g.RollDice(roll);
    g.ContinueAfterRoll();
    g.GoDeeper();
    g.ChooseWeapon(Spear);
    g.SubmitAnswer(answer);
    g.StartFindIt(correct);
    g.ClickTarget(correct);
    g.NextChallenge();
    g.StartFinalChallenge();
    while g.screen.Final?
      invariant g.Valid() && g.started
      invariant g.screen.Final? ==> 0 < g.screen.health <= MaxHealth
      invariant !g.screen.Final? ==> g.screen == Victory && g.cta && g.victory
      decreases if g.screen.Final? then g.screen.health else 0
    {
      g.HitEnemy();
    }
  }
}
